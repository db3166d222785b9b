/** What every step of the job protocol keeps. */
module JobSafety {
  import opened Wrappers
  import opened Strings
  import opened JsonText
  import opened ResultEnforcement
  import opened OutputArtifact
  import opened JobRecords
  import opened JobEngine

  // ------------------------------------------------------- the invariant

  /** The persisted lifecycle agrees with where the worker is. */
  predicate StageFits(w: Worker, lifecycle: JobLifecycle)
  {
    && (lifecycle == Cancelling ==> w.aborted)
    && match w.stage
       case Scheduled => lifecycle == Queued || lifecycle.Ended?
       case AwaitingHandler => lifecycle == Running || lifecycle == Cancelling || lifecycle.Ended?
       case AwaitingEnforcement => lifecycle == Validating || lifecycle == Cancelling || lifecycle.Ended?
  }

  predicate ArtifactFits(r: Record, j: Job)
  {
    && (j.root.Some? <==> j.artifact.Some?)
    && (j.artifact.Some? ==>
          && j.artifact.value.createdAt == r.createdAt
          && (j.artifact.value.state == Pending <==> !j.lifecycle.Ended?)
          && (j.artifact.value.state == Available ==>
                j.lifecycle == Ended(Succeeded) && WithinLimits(j.artifact.value.fileCount, j.artifact.value.byteSize)))
  }

  ghost predicate JobOk(env: Env, s: Engine, r: Record, j: Job)
  {
    && r.id in s.rules
    && (j.terminalAt.Some? <==> j.lifecycle.Ended?)
    && (j.result.Some? <==> j.lifecycle.Ended?)
    && (j.lifecycle.Ended? ==> j.result.value.status == j.lifecycle.status && r.state == EndState(j.lifecycle.status))
    && (j.lifecycle == Cancelling ==> j.cancelRequestedAt.Some?)
    && (j.cancelRequestedAt.Some? ==>
          j.lifecycle == Cancelling || (j.lifecycle.Ended? && j.lifecycle.status != Succeeded))
    && (r.id in s.workers ==> StageFits(s.workers[r.id], j.lifecycle))
    && ArtifactFits(r, j)
  }

  ghost predicate RecordOk(env: Env, s: Engine, r: Record)
  {
    && r.createdAt <= r.updatedAt <= s.clock
    && (r.job.Some? ==> JobOk(env, s, r, r.job.value))
    && (LiveRoot(r).Some? ==> LiveRoot(r).value in s.roots)
  }

  ghost predicate WorkerOk(env: Env, s: Engine, id: nat)
    requires id in s.workers
  {
    var w := s.workers[id];
    && id in s.rules
    && (w.timedOut ==> w.aborted)
    && (w.stage == Scheduled ==> w.settled == None && !w.timedOut)
    && (w.stage == AwaitingEnforcement ==> w.handler.Some? && w.handler.value.status == Succeeded)
  }

  ghost predicate DistinctRoots(records: seq<Record>)
  {
    forall i, j :: 0 <= i < j < |records| && records[i].job.Some? && records[j].job.Some? ==>
      records[i].job.value.root == None || records[i].job.value.root != records[j].job.value.root
  }

  ghost predicate Inv(env: Env, s: Engine)
  {
    && |s.store| <= STORE_CAP
    && UniqueIds(s.store) && UniqueKeys(s.store) && DistinctRoots(s.store)
    && (forall i :: 0 <= i < |s.store| ==> RecordOk(env, s, s.store[i]))
    && (forall id :: id in s.workers ==> WorkerOk(env, s, id))
  }

  // ------------------------------------------------------- what a step may do to one record

  predicate SameIdentity(a: Record, b: Record)
  {
    && a.id == b.id && a.createdAt == b.createdAt && a.job.Some? == b.job.Some?
    && (a.job.Some? ==>
          var j, k := a.job.value, b.job.value;
          && SharedKey(j, k) && j.requestId == k.requestId
          && j.capabilityId == k.capabilityId && j.capabilityVersion == k.capabilityVersion
          && j.fingerprint == k.fingerprint && j.root == k.root)
  }

  /** The edges of the job lifecycle. */
  predicate Edge(a: JobLifecycle, b: JobLifecycle)
  {
    match a
    case Queued => b == Running || b == Ended(Failed) || b == Ended(Status.Cancelled)
    case Running => b == Validating || b == Cancelling || b == Ended(Failed) || b == Ended(Status.Cancelled)
    case Validating => b == Cancelling || b.Ended?
    case Cancelling => b == Ended(Failed) || b == Ended(Status.Cancelled)
    case Ended(_) => false
  }

  /** The worker of `id` is past enforcement with a success that nothing has overridden. */
  predicate PassedEnforcement(s: Engine, id: nat)
  {
    && id in s.workers && id in s.rules
    && s.workers[id].stage == AwaitingEnforcement
    && !s.workers[id].aborted && !s.workers[id].timedOut
    && s.workers[id].settled.Some? && s.workers[id].settled.value.status == Succeeded
  }

  ghost predicate JobProgress(env: Env, s: Engine, id: nat, j: Job, k: Job)
  {
    && (j.lifecycle.Ended? ==> k.lifecycle == j.lifecycle && k.terminalAt == j.terminalAt && k.result == j.result)
    && (j.lifecycle == k.lifecycle || Edge(j.lifecycle, k.lifecycle))
    && (j.cancelRequestedAt.Some? ==> k.cancelRequestedAt.Some?)
    && (k.lifecycle == Ended(Succeeded) && j.lifecycle != k.lifecycle ==>
          PassedEnforcement(s, id) && k.result == Some(TerminalResult(env.bytes, s.workers[id].settled.value)))
  }

  /** `after` is a later version of `before`. */
  ghost predicate Progress(env: Env, s: Engine, before: Record, after: Record)
  {
    && SameIdentity(before, after)
    && (before.job.Some? ==> JobProgress(env, s, before.id, before.job.value, after.job.value))
    && (LiveRoot(after).Some? ==> LiveRoot(before).Some?)
  }

  /** A record that was not stored before: a queued job with a new identity, or an ordinary execution record. */
  ghost predicate Fresh(s: Engine, r: Record)
  {
    && r.id !in s.rules
    && (r.job.Some? ==> r.job.value.lifecycle == Queued && r.job.value.cancelRequestedAt.None?)
  }

  /** A record that is new, or that some stored record became. */
  ghost predicate Traced(env: Env, s: Engine, r: Record)
  {
    Fresh(s, r) || exists q :: q in s.store && Progress(env, s, q, r)
  }

  ghost predicate Explained(env: Env, s: Engine, t: Engine)
  {
    && s.rules.Keys <= t.rules.Keys
    && forall r {:trigger Traced(env, s, r)} :: r in t.store ==> Traced(env, s, r)
  }

  // ------------------------------------------------------- output roots

  ghost function LiveRoots(records: seq<Record>): set<nat>
  {
    set i | 0 <= i < |records| && LiveRoot(records[i]).Some? :: LiveRoot(records[i]).value
  }

  /** Output roots that exist but that no stored job answers for. */
  ghost function Leaked(s: Engine): set<nat>
  {
    s.roots - LiveRoots(s.store)
  }

  // ------------------------------------------------------- steps that rewrite records in place

  /** The shape of every step that neither adds nor drops records. */
  ghost predicate InPlace(env: Env, s: Engine, t: Engine)
  {
    && |t.store| == |s.store| && t.rules == s.rules
    && (forall i :: 0 <= i < |s.store| ==> Progress(env, s, s.store[i], t.store[i]) && RecordOk(env, t, t.store[i]))
    && (forall id :: id in t.workers ==> WorkerOk(env, t, id))
    && t.roots == s.roots - RemovedRoots(s.store, t.store)
  }

  lemma InPlaceInvariant(env: Env, s: Engine, t: Engine)
    requires Inv(env, s) && InPlace(env, s, t)
    ensures Inv(env, t)
  {
    assert forall i :: 0 <= i < |s.store| ==> SameIdentity(s.store[i], t.store[i]);
  }

  lemma InPlaceExplained(env: Env, s: Engine, t: Engine)
    requires InPlace(env, s, t)
    ensures Explained(env, s, t)
  {
    forall r | r in t.store ensures exists q :: q in s.store && Progress(env, s, q, r) {
      var i :| 0 <= i < |t.store| && t.store[i] == r;
      assert s.store[i] in s.store && Progress(env, s, s.store[i], r);
    }
  }

  lemma InPlaceLeaks(env: Env, s: Engine, t: Engine)
    requires Inv(env, s) && InPlace(env, s, t)
    ensures Leaked(t) == Leaked(s)
  {
    InPlaceLiveRoots(env, s, t);
    forall x | x in s.roots ensures x in Leaked(t) <==> x in Leaked(s) {
      RemovedMembership(s.store, t.store, x);
      if x in LiveRoots(s.store) {
        var i :| 0 <= i < |s.store| && LiveRoot(s.store[i]).Some? && LiveRoot(s.store[i]).value == x;
        assert Progress(env, s, s.store[i], t.store[i]);
        if LiveRoot(t.store[i]).Some? {
          assert x in LiveRoots(t.store);
        } else {
          assert x in Removed(s.store[i], t.store[i]);
        }
      } else {
        assert x !in RemovedRoots(s.store, t.store);
      }
    }
  }

  lemma InPlaceLiveRoots(env: Env, s: Engine, t: Engine)
    requires InPlace(env, s, t)
    ensures LiveRoots(t.store) <= LiveRoots(s.store)
  {
    forall x | x in LiveRoots(t.store) ensures x in LiveRoots(s.store) {
      var i :| 0 <= i < |t.store| && LiveRoot(t.store[i]).Some? && LiveRoot(t.store[i]).value == x;
      assert Progress(env, s, s.store[i], t.store[i]);
    }
  }

  // ------------------------------------------------------- steps that rewrite one record

  lemma FindUnique(records: seq<Record>, i: nat)
    requires UniqueIds(records) && i < |records|
    ensures Find(records, records[i].id) == Some(i)
  {
  }

  lemma SavedReplaces(records: seq<Record>, r: Record)
    requires |records| <= STORE_CAP && Find(records, r.id).Some?
    ensures Saved(records, r) == records[Find(records, r.id).value := r]
  {
  }

  lemma RemovedByOne(records: seq<Record>, i: nat, r: Record)
    requires i < |records|
    ensures RemovedRoots(records, records[i := r]) == Removed(records[i], r)
  {
    var after := records[i := r];
    assert forall k :: 0 <= k < |records| && k != i ==> Removed(records[k], after[k]) == {};
    forall x | x in RemovedRoots(records, after) ensures x in Removed(records[i], r) {
      RemovedMembership(records, after, x);
      var k :| 0 <= k < |records| && x in Removed(records[k], after[k]);
    }
    forall x | x in Removed(records[i], r) ensures x in RemovedRoots(records, after) {
      assert x in Removed(records[i], after[i]);
      RemovedMembership(records, after, x);
    }
  }

  /** Workers of other jobs are as before. */
  ghost predicate OthersUntouched(s: Engine, t: Engine, id: nat)
  {
    && (forall k :: k in t.workers && k != id ==> k in s.workers && t.workers[k] == s.workers[k])
  }

  /** `t` rewrites only the record of `id`, and touches only its worker. */
  lemma OneRecord(env: Env, s: Engine, t: Engine, r: Record)
    requires Inv(env, s) && Find(s.store, r.id).Some?
    requires t.store == Saved(s.store, r) && t.roots == s.roots - Removed(RecordOf(s, r.id), r)
    requires t.rules == s.rules && t.clock == s.clock && OthersUntouched(s, t, r.id)
    requires Progress(env, s, RecordOf(s, r.id), r) && RecordOk(env, t, r)
    requires r.id in t.workers ==> WorkerOk(env, t, r.id)
    ensures InPlace(env, s, t)
  {
    var i := Find(s.store, r.id).value;
    SavedReplaces(s.store, r);
    RemovedByOne(s.store, i, r);
    forall k | 0 <= k < |s.store| ensures Progress(env, s, s.store[k], t.store[k]) && RecordOk(env, t, t.store[k]) {
      if k != i {
        OtherRecord(env, s, t, i, k, r);
      }
    }
    forall id | id in t.workers ensures WorkerOk(env, t, id) {
      if id != r.id { assert WorkerOk(env, s, id); }
    }
  }

  lemma OtherRecord(env: Env, s: Engine, t: Engine, i: nat, k: nat, r: Record)
    requires Inv(env, s) && i < |s.store| && k < |s.store| && k != i && s.store[i].id == r.id
    requires t.roots == s.roots - Removed(s.store[i], r)
    requires t.rules == s.rules && t.clock == s.clock && OthersUntouched(s, t, r.id)
    ensures Progress(env, s, s.store[k], s.store[k]) && RecordOk(env, t, s.store[k])
  {
    assert RecordOk(env, s, s.store[k]);
    assert s.store[k].id != r.id;
    if LiveRoot(s.store[k]).Some? && LiveRoot(s.store[i]).Some? {
      assert LiveRoot(s.store[k]) != LiveRoot(s.store[i]);
    }
  }

  /** Nothing in the store changes and at most one worker does. */
  lemma OneWorker(env: Env, s: Engine, t: Engine, id: nat)
    requires Inv(env, s)
    requires t.store == s.store && t.roots == s.roots && t.rules == s.rules && t.clock == s.clock
    requires OthersUntouched(s, t, id)
    requires id in t.workers ==>
      && id in s.workers && WorkerOk(env, t, id)
      && t.workers[id].stage == s.workers[id].stage && (s.workers[id].aborted ==> t.workers[id].aborted)
    ensures InPlace(env, s, t)
  {
    forall i | 0 <= i < |s.store| ensures Progress(env, s, s.store[i], s.store[i]) && RecordOk(env, t, s.store[i]) {
      assert RecordOk(env, s, s.store[i]);
    }
    NothingRemoved(s.store);
    forall k | k in t.workers ensures WorkerOk(env, t, k) {
      if k != id { assert WorkerOk(env, s, k); }
    }
  }

  lemma NothingRemoved(records: seq<Record>)
    ensures RemovedRoots(records, records) == {}
  {
    assert forall i :: 0 <= i < |records| ==> Removed(records[i], records[i]) == {};
    assert forall x :: x !in RemovedRoots(records, records);
  }
}
