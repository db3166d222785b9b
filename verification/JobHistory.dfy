/** Where a stored success comes from: the handler's return and the enforcement verdict of its own run. */
module JobHistory {
  import opened Wrappers
  import opened Strings
  import opened JsonText
  import opened SchemaValidation
  import opened Redaction
  import opened ResultEnforcement
  import opened OutputArtifact
  import opened JobRecords
  import opened JobEngine
  import opened JobSafety
  import opened JobRuns
  import opened JobTheorems

  // ------------------------------------------------------- the events that matter

  /** Event `i` is the successful return of the handler that job `id` is waiting for. */
  ghost predicate HandlerReturned(env: Env, events: seq<Timed>, i: nat, id: nat, handler: HandlerResult)
  {
    && i < |events| && events[i].event == HandlerSettles(id, handler) && handler.status == Succeeded
    && var s := Run(env, events[..i]);
       && Legal(s, events[i]) && id in s.workers && s.workers[id].stage == AwaitingHandler && s.workers[id].settled == None
  }

  /** Event `j` is the end of the enforcement that job `id` is waiting for, over this handler result. */
  ghost predicate EnforcementReturned(env: Env, events: seq<Timed>, j: nat, id: nat, verdict: Str -> Verdict, handler: HandlerResult)
  {
    && j < |events| && events[j].event == EnforcementSettles(id, verdict)
    && var s := Run(env, events[..j]);
       && Legal(s, events[j]) && id in s.workers && s.workers[id].stage == AwaitingEnforcement
       && s.workers[id].settled == None && s.workers[id].handler == Some(handler) && id in s.rules
  }

  lemma HandlerReturnedLater(env: Env, past: seq<Timed>, n: nat, i: nat, id: nat, handler: HandlerResult)
    requires n <= |past| && HandlerReturned(env, past[..n], i, id, handler)
    ensures HandlerReturned(env, past, i, id, handler)
  {
    assert past[..n][..i] == past[..i];
  }

  lemma EnforcementReturnedLater(env: Env, past: seq<Timed>, n: nat, j: nat, id: nat, verdict: Str -> Verdict, handler: HandlerResult)
    requires n <= |past| && EnforcementReturned(env, past[..n], j, id, verdict, handler)
    ensures EnforcementReturned(env, past, j, id, verdict, handler)
  {
    assert past[..n][..j] == past[..j];
  }

  // ------------------------------------------------------- one step back

  predicate Succeeds(settled: Option<HandlerResult>)
  {
    settled.Some? && settled.value.status == Succeeded
  }

  /** A pending handler success was there before, or is this event. */
  predicate HandlerTraced(s: Engine, event: Event, id: nat, w: Worker)
  {
    w.stage == AwaitingHandler && Succeeds(w.settled) ==>
      && id in s.workers && s.workers[id].stage == AwaitingHandler
      && (s.workers[id].settled == w.settled
          || (s.workers[id].settled == None && event == HandlerSettles(id, w.settled.value)))
  }

  /** A result under enforcement was there before, or is the handler success the worker had. */
  predicate StageTraced(s: Engine, id: nat, w: Worker)
  {
    w.stage == AwaitingEnforcement ==>
      && id in s.workers
      && ((s.workers[id].stage == AwaitingEnforcement && s.workers[id].handler == w.handler)
          || (s.workers[id].stage == AwaitingHandler && s.workers[id].settled == w.handler && Succeeds(w.handler)))
  }

  /** A pending enforcement success was there before, or is the outcome of this event. */
  predicate EnforcementTraced(env: Env, s: Engine, event: Event, id: nat, w: Worker)
  {
    w.stage == AwaitingEnforcement && Succeeds(w.settled) ==>
      && id in s.workers && s.workers[id].stage == AwaitingEnforcement && s.workers[id].handler == w.handler
      && (s.workers[id].settled == w.settled
          || (s.workers[id].settled == None && event.EnforcementSettles? && event.id == id && w.handler.Some? && id in s.rules
              && w.settled == Some(Enforced(s.rules[id], env.bytes, event.verdict, w.handler.value))))
  }

  ghost predicate WorkerTraced(env: Env, s: Engine, event: Event, id: nat, w: Worker)
  {
    HandlerTraced(s, event, id, w) && StageTraced(s, id, w) && EnforcementTraced(env, s, event, id, w)
  }

  /** A worker that a step leaves alone, or only aborts, is traced. */
  lemma SameWorkerTraced(env: Env, s: Engine, event: Event, id: nat, w: Worker)
    requires id in s.workers && (w == s.workers[id] || w == Aborted(s.workers[id]) || w == TimedOut(s.workers[id]))
    ensures WorkerTraced(env, s, event, id, w)
  {
  }

  lemma BrokerTraces(env: Env, s: Engine, b: Submission, at: int, id: nat)
    requires id in RunBroker(env, s, b, at).0.workers
    ensures WorkerTraced(env, s, BrokerRun(b), id, RunBroker(env, s, b, at).0.workers[id])
  {
    if id in s.workers && RunBroker(env, s, b, at).0.workers[id] == s.workers[id] {
      SameWorkerTraced(env, s, BrokerRun(b), id, s.workers[id]);
    }
  }

  lemma CancelTraces(env: Env, s: Engine, target: nat, lookup: Lookup, at: int, id: nat)
    requires id in CancelJob(env, s, target, lookup, at).workers
    ensures WorkerTraced(env, s, Cancel(target, lookup), id, CancelJob(env, s, target, lookup, at).workers[id])
  {
    SameWorkerTraced(env, s, Cancel(target, lookup), id, CancelJob(env, s, target, lookup, at).workers[id]);
  }

  lemma StartTraces(env: Env, s: Engine, target: nat, at: int, id: nat)
    requires Inv(env, s) && target in s.workers && s.workers[target].stage == Scheduled
    requires id in StartWorker(s, target, at).workers
    ensures WorkerTraced(env, s, WorkerStarts(target), id, StartWorker(s, target, at).workers[id])
  {
    assert WorkerOk(env, s, target);
    if id != target { SameWorkerTraced(env, s, WorkerStarts(target), id, s.workers[id]); }
  }

  lemma ResumeTraces(env: Env, s: Engine, target: nat, at: int, output: Node, id: nat)
    requires target in s.workers && s.workers[target].settled.Some?
    requires id in ResumeWorker(env, s, target, at, Listed(output)).workers
    ensures WorkerTraced(env, s, WorkerResumes(target, output), id, ResumeWorker(env, s, target, at, Listed(output)).workers[id])
  {
    if id != target { SameWorkerTraced(env, s, WorkerResumes(target, output), id, s.workers[id]); }
  }

  lemma SettlingTraces(env: Env, s: Engine, event: Event, at: int, id: nat)
    requires event.HandlerSettles? || event.EnforcementSettles? || event.TimerFires?
    requires id in Effect(env, s, event, at).workers
    ensures WorkerTraced(env, s, event, id, Effect(env, s, event, at).workers[id])
  {
    if id in s.workers && Effect(env, s, event, at).workers[id] == s.workers[id] {
      SameWorkerTraced(env, s, event, id, s.workers[id]);
    }
  }

  lemma EffectTraces(env: Env, s: Engine, event: Event, at: int, id: nat)
    requires Inv(env, s) && id in Effect(env, s, event, at).workers
    ensures WorkerTraced(env, s, event, id, Effect(env, s, event, at).workers[id])
  {
    match event {
      case BrokerRun(b) => BrokerTraces(env, s, b, at, id);
      case Cancel(target, lookup) => CancelTraces(env, s, target, lookup, at, id);
      case WorkerStarts(target) =>
        if target in s.workers && s.workers[target].stage == Scheduled {
          StartTraces(env, s, target, at, id);
        } else {
          SameWorkerTraced(env, s, event, id, s.workers[id]);
        }
      case WorkerResumes(target, output) =>
        if target in s.workers && s.workers[target].stage != Scheduled && s.workers[target].settled.Some? {
          ResumeTraces(env, s, target, at, output, id);
        } else {
          SameWorkerTraced(env, s, event, id, s.workers[id]);
        }
      case HandlerSettles(_, _) => SettlingTraces(env, s, event, at, id);
      case EnforcementSettles(_, _) => SettlingTraces(env, s, event, at, id);
      case TimerFires(_) => SettlingTraces(env, s, event, at, id);
      case Restart =>
      case _ => SameWorkerTraced(env, s, event, id, s.workers[id]);
    }
  }

  lemma RulesKept(env: Env, s: Engine, e: Timed, id: nat)
    requires id in s.rules
    ensures id in Next(env, s, e).rules && Next(env, s, e).rules[id] == s.rules[id]
  {
  }

  lemma {:induction false} RulesKeptBy(env: Env, events: seq<Timed>, n: nat, id: nat)
    requires n <= |events| && id in Run(env, events[..n]).rules
    ensures id in Run(env, events).rules && Run(env, events).rules[id] == Run(env, events[..n]).rules[id]
    decreases |events| - n
  {
    if n == |events| {
      assert events[..n] == events;
    } else {
      assert events[..n + 1][..n] == events[..n];
      RulesKept(env, Run(env, events[..n]), events[n], id);
      RulesKeptBy(env, events, n + 1, id);
    }
  }

  /** One event earlier, the worker was traced from what it is now. */
  lemma StepTraces(env: Env, events: seq<Timed>, id: nat) returns (past: seq<Timed>, e: Timed)
    requires events != [] && id in Run(env, events).workers
    ensures events == past + [e] && events[..|past|] == past && Run(env, events) == Next(env, Run(env, past), e)
    ensures Legal(Run(env, past), e) ==> WorkerTraced(env, Run(env, past), e.event, id, Run(env, events).workers[id])
    ensures !Legal(Run(env, past), e) ==> Run(env, events) == Run(env, past)
  {
    past, e := events[..|events| - 1], events[|events| - 1];
    LastTraces(env, past, e, id);
  }

  lemma NextTraces(env: Env, s: Engine, e: Timed, id: nat)
    requires Inv(env, s) && Legal(s, e) && id in Next(env, s, e).workers
    ensures WorkerTraced(env, s, e.event, id, Next(env, s, e).workers[id])
  {
    AdvanceClock(env, s, e.at);
    EffectTraces(env, s.(clock := e.at), e.event, e.at, id);
    ClockIrrelevant(env, s, e.at, e.event, id, Next(env, s, e).workers[id]);
  }

  lemma LastTraces(env: Env, past: seq<Timed>, e: Timed, id: nat)
    requires id in Next(env, Run(env, past), e).workers
    ensures var s := Run(env, past); Legal(s, e) ==> WorkerTraced(env, s, e.event, id, Next(env, s, e).workers[id])
  {
    Reachable(env, past);
    if Legal(Run(env, past), e) { NextTraces(env, Run(env, past), e, id); }
  }

  lemma ClockIrrelevant(env: Env, s: Engine, at: int, event: Event, id: nat, w: Worker)
    requires WorkerTraced(env, s.(clock := at), event, id, w)
    ensures WorkerTraced(env, s, event, id, w)
  {
  }

  // ------------------------------------------------------- the whole history

  /** The handler success a worker holds was returned to it in this run. */
  lemma {:induction false} HandlerHistory(env: Env, events: seq<Timed>, id: nat, handler: HandlerResult) returns (i: nat)
    requires id in Run(env, events).workers && handler.status == Succeeded
    requires var w := Run(env, events).workers[id];
      (w.stage == AwaitingHandler && w.settled == Some(handler)) || (w.stage == AwaitingEnforcement && w.handler == Some(handler))
    ensures HandlerReturned(env, events, i, id, handler)
  {
    var past, e := StepTraces(env, events, id);
    if Legal(Run(env, past), e) && Run(env, events).workers[id].stage == AwaitingHandler && Run(env, past).workers[id].settled == None {
      i := |past|;
    } else {
      i := HandlerHistory(env, past, id, handler);
      HandlerReturnedLater(env, events, |past|, i, id, handler);
    }
  }

  /** The enforcement success a worker holds is the outcome of an enforcement of its handler's result in this run. */
  lemma {:induction false} EnforcementHistory(env: Env, events: seq<Timed>, id: nat) returns (j: nat, verdict: Str -> Verdict)
    requires id in Run(env, events).workers && id in Run(env, events).rules
    requires var w := Run(env, events).workers[id]; w.stage == AwaitingEnforcement && w.handler.Some? && Succeeds(w.settled)
    ensures var w := Run(env, events).workers[id];
      && EnforcementReturned(env, events, j, id, verdict, w.handler.value)
      && w.settled == Some(Enforced(Run(env, events).rules[id], env.bytes, verdict, w.handler.value))
  {
    var past, e := StepTraces(env, events, id);
    var s := Run(env, past);
    Reachable(env, past);
    assert WorkerOk(env, s, id);
    RulesKept(env, s, e, id);
    if Legal(s, e) && s.workers[id].settled == None {
      j, verdict := |past|, e.event.verdict;
    } else {
      j, verdict := EnforcementHistory(env, past, id);
      EnforcementReturnedLater(env, events, |past|, j, id, verdict, s.workers[id].handler.value);
    }
  }

  /** Where a stored success was one step earlier. */
  lemma SuccessStep(env: Env, s: Engine, e: Timed, r: Record) returns (q: Record)
    requires Inv(env, s) && r in Next(env, s, e).store && r.job.Some? && r.job.value.lifecycle == Ended(Succeeded)
    ensures q in s.store && q.id == r.id && q.job.Some?
    ensures q.job.value.lifecycle == Ended(Succeeded) ==> q.job.value.result == r.job.value.result
    ensures q.job.value.lifecycle != Ended(Succeeded) ==>
      && PassedEnforcement(s, r.id) && Unended(s, r.id) && JobOf(s, r.id).lifecycle == Validating
      && r.job.value.result == Some(TerminalResult(env.bytes, s.workers[r.id].settled.value))
  {
    StepKeeps(env, s, e);
    assert Traced(env, s, r);
    q :| q in s.store && Progress(env, s, q, r);
    StoredAt(s, q);
  }

  /** The step that stored a success: its job was validating and its worker past enforcement. */
  lemma {:induction false} SuccessWasStored(env: Env, events: seq<Timed>, r: Record) returns (n: nat)
    requires r in Run(env, events).store && r.job.Some? && r.job.value.lifecycle == Ended(Succeeded)
    ensures n < |events|
    ensures var s := Run(env, events[..n]);
      && PassedEnforcement(s, r.id) && Unended(s, r.id) && JobOf(s, r.id).lifecycle == Validating
      && r.job.value.result == Some(TerminalResult(env.bytes, s.workers[r.id].settled.value))
  {
    var past := events[..|events| - 1];
    var s := Run(env, past);
    Reachable(env, past);
    var q := SuccessStep(env, s, events[|events| - 1], r);
    if q.job.value.lifecycle == Ended(Succeeded) {
      n := SuccessWasStored(env, past, q);
      assert past[..n] == events[..n];
    } else {
      n := |past|;
      assert events[..n] == past;
    }
  }

  /**
   * A stored success has a history in its own run: event `i` returned a handler success to its worker, the later event
   * `j` ended the enforcement of that result with `verdict`, which it passed, and at the later point `n` the job was
   * validating and that very outcome, neither aborted nor timed out, was stored.
   */
  lemma SuccessPassedEnforcement(env: Env, events: seq<Timed>, r: Record)
    returns (i: nat, j: nat, n: nat, handler: HandlerResult, verdict: Str -> Verdict)
    requires r in Run(env, events).store && r.job.Some? && r.job.value.lifecycle == Ended(Succeeded)
    ensures i < j < n < |events| && r.id in Run(env, events).rules
    ensures HandlerReturned(env, events, i, r.id, handler) && EnforcementReturned(env, events, j, r.id, verdict, handler)
    ensures var enforced := Enforced(Run(env, events).rules[r.id], env.bytes, verdict, handler);
      var s := Run(env, events[..n]);
      && enforced.status == Succeeded && r.job.value.result == Some(TerminalResult(env.bytes, enforced))
      && Passes(Run(env, events).rules[r.id], env.bytes, verdict, handler)
      && PassedEnforcement(s, r.id) && s.workers[r.id].settled == Some(enforced)
      && Unended(s, r.id) && JobOf(s, r.id).lifecycle == Validating
  {
    n := SuccessWasStored(env, events, r);
    var past := events[..n];
    var s := Run(env, past);
    Reachable(env, past);
    assert WorkerOk(env, s, r.id);
    handler := s.workers[r.id].handler.value;
    j, verdict := EnforcementHistory(env, past, r.id);
    EnforcementReturnedLater(env, events, n, j, r.id, verdict, handler);
    assert past[..j] == events[..j];
    i := HandlerHistory(env, events[..j], r.id, handler);
    HandlerReturnedLater(env, events, j, i, r.id, handler);
    RulesKeptBy(env, events, n, r.id);
    EnforcementSucceedsExactlyWhen(Run(env, events).rules[r.id], env.bytes, verdict, handler);
  }

  /**
   * What a stored success carries: its handler's output passed enforcement in this run, so it is presentable, and either
   * within every declared limit and accepted by every required verifier, or exceeds a limit and is meant for evidence.
   * It is stored inline, redacted, exactly when it is within every limit and the 256 KiB of the job store.
   */
  lemma SuccessIsJustified(env: Env, events: seq<Timed>, r: Record)
    returns (i: nat, j: nat, handler: HandlerResult, verdict: Str -> Verdict)
    requires GoodMeasure(env.bytes)
    requires r in Run(env, events).store && r.job.Some? && r.job.value.lifecycle == Ended(Succeeded)
    ensures i < j < |events| && r.job.value.result.Some? && r.id in Run(env, events).rules
    ensures HandlerReturned(env, events, i, r.id, handler) && EnforcementReturned(env, events, j, r.id, verdict, handler)
    ensures var rules, stored := Run(env, events).rules[r.id], r.job.value.result.value;
      var output := Redacted(rules.redaction, handler.output);
      && Passes(rules, env.bytes, verdict, handler)
      && stored.status == Succeeded && stored.failure == None && stored.outputBytes == env.bytes(output)
      && if Exceeds(rules, env.bytes, output) || env.bytes(output).value > 262_144 then
           stored.outputState == Some(EvidenceReference) && stored.output == Undefined
         else stored.outputState == Some(Inline) && stored.output == output
  {
    var n;
    i, j, n, handler, verdict := SuccessPassedEnforcement(env, events, r);
    var rules := Run(env, events).rules[r.id];
    StoredSuccess(rules, env.bytes, verdict, handler);
  }
}
