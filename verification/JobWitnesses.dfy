/** Runs that show what the protocol can do: store a success, and leave an output root behind in each possible way. */
module JobWitnesses {
  import opened Wrappers
  import opened Strings
  import opened JsonText
  import opened ResultEnforcement
  import opened OutputArtifact
  import opened JobRecords
  import opened JobEngine
  import opened JobSafety
  import opened JobTheorems
  import opened JobRoots

  lemma OneMoreStep(env: Env, past: seq<Timed>, e: Timed)
    ensures Run(env, past + [e]) == Next(env, Run(env, past), e)
    ensures OrphanedBy(env, past + [e]) ==
      OrphanedBy(env, past) + if Legal(Run(env, past), e) then Orphaned(env, Run(env, past), e) else {}
  {
    assert (past + [e])[..|past|] == past;
  }

  function OneJob(r: Record, w: Worker, b: Submission): Engine
  {
    Engine([r], map[r.id := w], OwnedRoots(b), 0, map[r.id := b.rules])
  }

  predicate Submittable(env: Env, b: Submission)
  {
    RequestValid(env.bytes, b.request) && b.authorized
  }

  // ------------------------------------------------------- success is reachable

  lemma Submitted(env: Env, b: Submission) returns (r: Record)
    requires Submittable(env, b)
    ensures r == NewRecord(env, b, 0)
    ensures Run(env, [Timed(0, BrokerRun(b))]) == OneJob(r, Worker(Scheduled, false, false, None, None), b)
  {
    r := NewRecord(env, b, 0);
    OneMoreStep(env, [], Timed(0, BrokerRun(b)));
    assert [] + [Timed(0, BrokerRun(b))] == [Timed(0, BrokerRun(b))];
  }

  lemma StartedJob(env: Env, q: Record, b: Submission) returns (r: Record)
    requires q.id == b.id && q.job.Some? && q.job.value.lifecycle == Queued
    ensures Next(env, OneJob(q, Worker(Scheduled, false, false, None, None), b), Timed(0, WorkerStarts(b.id)))
      == OneJob(r, Worker(AwaitingHandler, false, false, None, None), b)
    ensures r == q.(state := ExecRunning, updatedAt := 0,
                    job := Some(q.job.value.(lifecycle := Running, startedAt := Some(0), step := AtRunning)))
  {
    r := q.(state := ExecRunning, updatedAt := 0,
            job := Some(q.job.value.(lifecycle := Running, startedAt := Some(0), step := AtRunning)));
  }

  lemma ReturnedJob(env: Env, q: Record, b: Submission, handler: HandlerResult)
    requires q.id == b.id
    ensures Next(env, OneJob(q, Worker(AwaitingHandler, false, false, None, None), b), Timed(0, HandlerSettles(b.id, handler)))
      == OneJob(q, Worker(AwaitingHandler, false, false, Some(handler), None), b)
  {
  }

  lemma ValidatingJob(env: Env, q: Record, b: Submission, handler: HandlerResult, output: Node) returns (r: Record)
    requires q.id == b.id && q.job.Some? && q.job.value.lifecycle == Running && handler.status == Succeeded
    ensures Next(env, OneJob(q, Worker(AwaitingHandler, false, false, Some(handler), None), b), Timed(0, WorkerResumes(b.id, output)))
      == OneJob(r, Worker(AwaitingEnforcement, false, false, None, Some(handler)), b)
    ensures r == q.(state := ExecCompleting, updatedAt := 0,
                    job := Some(q.job.value.(lifecycle := Validating, step := AtValidating)))
  {
    r := q.(state := ExecCompleting, updatedAt := 0, job := Some(q.job.value.(lifecycle := Validating, step := AtValidating)));
  }

  lemma EnforcedJob(env: Env, q: Record, b: Submission, handler: HandlerResult, verdict: Str -> Verdict)
    requires q.id == b.id
    ensures Next(env, OneJob(q, Worker(AwaitingEnforcement, false, false, None, Some(handler)), b), Timed(0, EnforcementSettles(b.id, verdict)))
      == OneJob(q, Worker(AwaitingEnforcement, false, false, Some(Enforced(b.rules, env.bytes, verdict, handler)), Some(handler)), b)
  {
  }

  lemma StoredJob(env: Env, q: Record, b: Submission, handler: HandlerResult, result: HandlerResult, output: Node) returns (r: Record)
    requires q.id == b.id && q.job.Some? && q.job.value.lifecycle == Validating && result.status == Succeeded
    ensures var s := OneJob(q, Worker(AwaitingEnforcement, false, false, Some(result), Some(handler)), b);
      var t := Next(env, s, Timed(0, WorkerResumes(b.id, output)));
      t.store == [r] && t.roots == s.roots - Removed(q, r) && t.clock == 0 && r == EndedRecord(env, q, result, 0, Listed(output))
  {
    r := EndedRecord(env, q, result, 0, Listed(output));
  }

  /** The events of a run that submits `b`, runs it, and stores what enforcing the handler's result gives. */
  function SuccessRun(b: Submission, handler: HandlerResult, verdict: Str -> Verdict, output: Node): seq<Timed>
  {
    [Timed(0, BrokerRun(b))] + [Timed(0, WorkerStarts(b.id))] + [Timed(0, HandlerSettles(b.id, handler))]
    + [Timed(0, WorkerResumes(b.id, output))] + [Timed(0, EnforcementSettles(b.id, verdict))]
    + [Timed(0, WorkerResumes(b.id, output))]
  }

  /**
   * Success is reachable: for every submission, with or without an output root, and every handler result that enforcement
   * accepts, a run stores that result as succeeded. Its artifact, if any, has the exact totals of an acceptable tree.
   */
  lemma AcceptedResultsSucceed(env: Env, b: Submission, handler: HandlerResult, verdict: Str -> Verdict, output: Node)
    returns (r: Record)
    requires Submittable(env, b) && handler.status == Succeeded
    requires Enforced(b.rules, env.bytes, verdict, handler).status == Succeeded
    ensures var t := Run(env, SuccessRun(b, handler, verdict, output)); t.store == [r] && t.clock == 0
    ensures r.id == b.id && r.job.Some? && r.job.value.lifecycle == Ended(Succeeded) && r.updatedAt == 0 && r.state == ExecCompleted
    ensures r.job.value.result == Some(TerminalResult(env.bytes, Enforced(b.rules, env.bytes, verdict, handler)))
    ensures r.job.value.root == b.root
    ensures r.job.value.artifact ==
      if b.root.None? then None else Some(Finalized(PendingArtifact(b.id, 0, b.retentionMs), Available, Listed(output)))
  {
    var result := Enforced(b.rules, env.bytes, verdict, handler);
    var queued := Submitted(env, b);
    var e1 := [Timed(0, BrokerRun(b))];
    var running := StartedJob(env, queued, b);
    OneMoreStep(env, e1, Timed(0, WorkerStarts(b.id)));
    var e2 := e1 + [Timed(0, WorkerStarts(b.id))];
    ReturnedJob(env, running, b, handler);
    OneMoreStep(env, e2, Timed(0, HandlerSettles(b.id, handler)));
    var e3 := e2 + [Timed(0, HandlerSettles(b.id, handler))];
    var validating := ValidatingJob(env, running, b, handler, output);
    OneMoreStep(env, e3, Timed(0, WorkerResumes(b.id, output)));
    var e4 := e3 + [Timed(0, WorkerResumes(b.id, output))];
    EnforcedJob(env, validating, b, handler, verdict);
    OneMoreStep(env, e4, Timed(0, EnforcementSettles(b.id, verdict)));
    var e5 := e4 + [Timed(0, EnforcementSettles(b.id, verdict))];
    r := StoredJob(env, validating, b, handler, result, output);
    OneMoreStep(env, e5, Timed(0, WorkerResumes(b.id, output)));
  }

  // ------------------------------------------------------- ways to leave a root behind

  /** A step that orphans a root leaves it behind for good. */
  lemma LeftBehind(env: Env, past: seq<Timed>, e: Timed)
    requires Legal(Run(env, past), e) && Orphaned(env, Run(env, past), e) != {}
    ensures !Conserved(Run(env, past + [e]))
  {
    OneMoreStep(env, past, e);
    RunConservesRoots(env, past + [e]);
  }

  /** An ordinary execution record, distinct from the job. */
  function Other(b: Submission, k: nat): Record
  {
    Record(b.id + 1 + k, ExecCompleted, 0, 0, None, [], None)
  }

  function Others(b: Submission, n: nat): (r: seq<Record>)
    ensures |r| == n && forall k :: 0 <= k < n ==> r[k] == Other(b, k)
  {
    seq(n, k requires 0 <= k < n => Other(b, k))
  }

  function Saves(b: Submission, n: nat): seq<Timed>
  {
    if n == 0 then [Timed(0, BrokerRun(b))] else Saves(b, n - 1) + [Timed(0, SaveExecution(Other(b, n - 1)))]
  }

  lemma SaveAppends(env: Env, s: Engine, x: Record)
    requires Legal(s, Timed(s.clock, SaveExecution(x))) && Find(s.store, x.id).None? && |s.store| < STORE_CAP
    ensures Next(env, s, Timed(s.clock, SaveExecution(x))) == s.(store := s.store + [x])
  {
  }

  /** The submitted job followed by `n` ordinary execution records. */
  ghost predicate Filled(env: Env, b: Submission, n: nat, s: Engine)
  {
    && s.store == [NewRecord(env, b, 0)] + Others(b, n) && s.roots == OwnedRoots(b) && s.clock == 0 && s.rules.Keys == {b.id}
  }

  lemma OneMoreOther(env: Env, b: Submission, n: nat, s: Engine)
    requires Filled(env, b, n, s) && n + 1 < STORE_CAP
    ensures Filled(env, b, n + 1, Next(env, s, Timed(0, SaveExecution(Other(b, n)))))
  {
    assert forall k :: 0 <= k < |s.store| ==> s.store[k].id != Other(b, n).id;
    SaveAppends(env, s, Other(b, n));
    assert Others(b, n + 1) == Others(b, n) + [Other(b, n)];
  }

  lemma {:induction false} AfterSaves(env: Env, b: Submission, n: nat)
    requires Submittable(env, b) && n < STORE_CAP
    ensures Filled(env, b, n, Run(env, Saves(b, n)))
  {
    if n == 0 {
      var queued := Submitted(env, b);
    } else {
      AfterSaves(env, b, n - 1);
      OneMoreStep(env, Saves(b, n - 1), Timed(0, SaveExecution(Other(b, n - 1))));
      OneMoreOther(env, b, n - 1, Run(env, Saves(b, n - 1)));
    }
  }

  /** The cap: enough other records push a job out of the store while its artifact is pending. */
  lemma CapLeavesRoot(env: Env, b: Submission)
    requires Submittable(env, b) && b.root.Some?
    ensures !Conserved(Run(env, Saves(b, STORE_CAP)))
  {
    AfterSaves(env, b, STORE_CAP - 1);
    LeftBehind(env, Saves(b, STORE_CAP - 1), Timed(0, SaveExecution(Other(b, STORE_CAP - 1))));
  }

  /** The record limit of a recovery: it keeps one record, and the job's is not the last. */
  lemma RecoveryLimitLeavesRoot(env: Env, b: Submission, p: nat -> bool, c: nat -> bool)
    requires Submittable(env, b) && b.root.Some?
    ensures !Conserved(Run(env, Saves(b, 1) + [Timed(0, RecoverRuntime(p, c, 1))]))
  {
    AfterSaves(env, b, 1);
    var s := Run(env, Saves(b, 1));
    assert s.store[0] == NewRecord(env, b, 0) && LiveRoot(s.store[0]) == b.root;
    assert b.root.value in Orphaned(env, s, Timed(0, RecoverRuntime(p, c, 1)));
    LeftBehind(env, Saves(b, 1), Timed(0, RecoverRuntime(p, c, 1)));
  }

  /** The record limit of maintenance, in the same way. */
  lemma MaintenanceLimitLeavesRoot(env: Env, b: Submission)
    requires Submittable(env, b) && b.root.Some?
    ensures !Conserved(Run(env, Saves(b, 1) + [Timed(0, MaintainRuntime(0, 1))]))
  {
    AfterSaves(env, b, 1);
    var s := Run(env, Saves(b, 1));
    OneSurvivor(Other(b, 0));
    assert s.store[0] == NewRecord(env, b, 0) && s.store[1..] == [Other(b, 0)];
    MaintenanceOrphansFirst(env, s, 0, 0, 1);
    LeftBehind(env, Saves(b, 1), Timed(0, MaintainRuntime(0, 1)));
  }

  lemma OneSurvivor(r: Record)
    requires r.job.None? && 0 <= r.updatedAt
    ensures Survivors([r], 0, 0) == 1
  {
    assert [r][..0] == [];
  }

  lemma MaintenanceOrphansFirst(env: Env, s: Engine, at: int, retentionMs: int, keep: nat)
    requires s.store != [] && LiveRoot(s.store[0]).Some? && !Touched(s.store[0], at)
    requires WillBeDropped(s.store, 0, at, at - retentionMs, keep)
    ensures Orphaned(env, s, Timed(at, MaintainRuntime(retentionMs, keep))) != {}
  {
    assert LiveRoot(s.store[0]).value in Orphaned(env, s, Timed(at, MaintainRuntime(retentionMs, keep)));
  }

  /** Age, with a job that recovery marked as recovered although it never ended: its artifact is still pending. */
  lemma AgeLeavesPendingRoot(env: Env, b: Submission, p: nat -> bool, c: nat -> bool, retentionMs: nat)
    requires Submittable(env, b) && b.root.Some? && p(b.id) && c(b.id)
    ensures !Conserved(Run(env, Saves(b, 0) + [Timed(0, RecoverRuntime(p, c, STORE_CAP))]
                                + [Timed(retentionMs + 1, MaintainRuntime(retentionMs, STORE_CAP))]))
  {
    AfterSaves(env, b, 0);
    var past := Saves(b, 0);
    OneMoreStep(env, past, Timed(0, RecoverRuntime(p, c, STORE_CAP)));
    var r := NewRecord(env, b, 0);
    var s := Run(env, past + [Timed(0, RecoverRuntime(p, c, STORE_CAP))]);
    RecoveredQueued(env, Run(env, past), r, p, c);
    assert LiveRoot(s.store[0]) == b.root && !Touched(s.store[0], retentionMs + 1);
    assert TooOld(s.store[0], retentionMs + 1, 1);
    MaintenanceOrphansFirst(env, s, retentionMs + 1, retentionMs, STORE_CAP);
    LeftBehind(env, past + [Timed(0, RecoverRuntime(p, c, STORE_CAP))], Timed(retentionMs + 1, MaintainRuntime(retentionMs, STORE_CAP)));
  }

  lemma RecoveredQueued(env: Env, s: Engine, r: Record, p: nat -> bool, c: nat -> bool)
    requires s.store == [r] && s.clock == 0 && r.state == ExecPending && r.job.Some? && r.job.value.lifecycle == Queued
    requires p(r.id) && c(r.id)
    ensures Next(env, s, Timed(0, RecoverRuntime(p, c, STORE_CAP))).store == [r.(state := ExecRecovered, updatedAt := 0)]
    ensures Next(env, s, Timed(0, RecoverRuntime(p, c, STORE_CAP))).clock == 0
  {
  }

  /** Age, with artifacts retained longer than records: the artifact of a succeeded job is still available. */
  lemma AgeLeavesAvailableRoot(env: Env, b: Submission, handler: HandlerResult, verdict: Str -> Verdict, output: Node, retentionMs: nat)
    requires Submittable(env, b) && b.root.Some? && handler.status == Succeeded && Listed(output).Some?
    requires Enforced(b.rules, env.bytes, verdict, handler).status == Succeeded
    requires retentionMs + 1 < b.retentionMs
    ensures !Conserved(Run(env, SuccessRun(b, handler, verdict, output)
                                + [Timed(retentionMs + 1, MaintainRuntime(retentionMs, STORE_CAP))]))
  {
    var r := AcceptedResultsSucceed(env, b, handler, verdict, output);
    var past := SuccessRun(b, handler, verdict, output);
    var s := Run(env, past);
    assert s.store[0] == r && LiveRoot(r) == b.root && !Touched(r, retentionMs + 1) && TooOld(r, retentionMs + 1, 1);
    MaintenanceOrphansFirst(env, s, retentionMs + 1, retentionMs, STORE_CAP);
    LeftBehind(env, past, Timed(retentionMs + 1, MaintainRuntime(retentionMs, STORE_CAP)));
  }
}
