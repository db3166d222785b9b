/** Steps that add or drop records: submission, ordinary executions, truncation and age-based removal. */
module JobDrops {
  import opened Wrappers
  import opened Strings
  import opened JsonText
  import opened ResultEnforcement
  import opened OutputArtifact
  import opened JobRecords
  import opened JobEngine
  import opened JobSafety
  import opened JobSteps

  ghost predicate Pairwise(records: seq<Record>)
  {
    UniqueIds(records) && UniqueKeys(records) && DistinctRoots(records)
  }

  // ------------------------------------------------------- dropping records

  lemma LastPairwise(records: seq<Record>, n: nat)
    requires Pairwise(records)
    ensures Pairwise(Last(n, records)) && forall r :: r in Last(n, records) ==> r in records
  {
    LastIsSlice(n, records);
  }

  lemma {:induction false} RetainedPairwise(records: seq<Record>, cutoff: int)
    requires Pairwise(records)
    ensures Pairwise(Retained(records, cutoff))
  {
    if records != [] {
      var n := |records| - 1;
      RetainedPairwise(records[..n], cutoff);
      RetainedMembership(records[..n], cutoff);
      var rest := Retained(records[..n], cutoff);
      forall j | 0 <= j < |rest| ensures exists k :: 0 <= k < n && records[k] == rest[j] {
        assert rest[j] in rest;
        var k :| 0 <= k < |records[..n]| && records[..n][k] == rest[j];
        assert records[k] == rest[j];
      }
    }
  }

  lemma DropInvariant(env: Env, s: Engine, kept: seq<Record>)
    requires Inv(env, s) && Pairwise(kept) && |kept| <= STORE_CAP
    requires forall r :: r in kept ==> r in s.store
    ensures Inv(env, s.(store := kept))
  {
    var t := s.(store := kept);
    forall i | 0 <= i < |kept| ensures RecordOk(env, t, kept[i]) {
      assert kept[i] in kept;
      assert RecordOk(env, s, kept[i]);
    }
    forall id | id in t.workers ensures WorkerOk(env, t, id) {
      assert WorkerOk(env, s, id);
    }
  }

  lemma DropExplained(env: Env, s: Engine, t: Engine, kept: seq<Record>)
    requires Explained(env, s, t) && forall r :: r in kept ==> r in t.store
    ensures Explained(env, s, t.(store := kept))
  {
  }

  lemma LiveRootsMember(records: seq<Record>, x: nat)
    ensures x in LiveRoots(records) <==> exists r :: r in records && LiveRoot(r) == Some(x)
  {
    if x in LiveRoots(records) {
      var i :| 0 <= i < |records| && LiveRoot(records[i]).Some? && LiveRoot(records[i]).value == x;
      assert records[i] in records;
    }
  }

  lemma SameRootSameRecord(records: seq<Record>, q: Record, r: Record)
    requires DistinctRoots(records) && q in records && r in records
    requires LiveRoot(q).Some? && LiveRoot(q) == LiveRoot(r)
    ensures q == r
  {
  }

  /** Dropping records leaks exactly the roots the dropped ones still needed. */
  lemma DropLeaks(env: Env, s: Engine, kept: seq<Record>, dropped: seq<Record>)
    requires Inv(env, s)
    requires forall r :: r in s.store <==> r in kept || r in dropped
    requires forall r :: r in kept ==> r !in dropped
    ensures Leaked(s.(store := kept)) == Leaked(s) + LiveRoots(dropped)
  {
    var t := s.(store := kept);
    forall x ensures x in Leaked(t) <==> x in Leaked(s) || x in LiveRoots(dropped) {
      LiveRootsMember(s.store, x);
      LiveRootsMember(kept, x);
      LiveRootsMember(dropped, x);
      if x in LiveRoots(dropped) {
        var r :| r in dropped && LiveRoot(r) == Some(x);
        assert RecordOk(env, s, r);
        if x in LiveRoots(kept) {
          var q :| q in kept && LiveRoot(q) == Some(x);
          SameRootSameRecord(s.store, q, r);
        }
      }
    }
  }

  // ------------------------------------------------------- appending

  lemma AppendInvariant(env: Env, s: Engine, t: Engine, r: Record)
    requires Inv(env, s) && t.store == s.store && Pairwise(s.store + [r]) && Find(s.store, r.id).None?
    requires (forall i :: 0 <= i < |s.store| ==> RecordOk(env, t, s.store[i])) && RecordOk(env, t, r)
    requires forall id :: id in t.workers ==> WorkerOk(env, t, id)
    ensures Inv(env, t.(store := Saved(s.store, r)))
  {
    var u := t.(store := Saved(s.store, r));
    LastPairwise(s.store + [r], STORE_CAP);
    forall i | 0 <= i < |u.store| ensures RecordOk(env, u, u.store[i]) {
      assert u.store[i] in s.store + [r];
      assert RecordOk(env, t, u.store[i]);
    }
    forall id | id in u.workers ensures WorkerOk(env, u, id) {
      assert WorkerOk(env, t, id);
    }
  }

  lemma AppendExplained(env: Env, s: Engine, t: Engine, r: Record)
    requires Inv(env, s) && t.store == Saved(s.store, r) && Find(s.store, r.id).None? && Fresh(s, r)
    requires s.rules.Keys <= t.rules.Keys
    ensures Explained(env, s, t)
  {
    forall q | q in t.store ensures Fresh(s, q) || exists p :: p in s.store && Progress(env, s, p, q) {
      if q != r {
        assert q in s.store + [r];
        assert Progress(env, s, q, q);
      }
    }
  }

  /** The record that makes room when a record is appended to a full store. */
  ghost function Evicted(records: seq<Record>): seq<Record>
  {
    if |records| == STORE_CAP then records[..1] else []
  }

  lemma AppendSplits(records: seq<Record>, r: Record)
    requires |records| <= STORE_CAP && Find(records, r.id).None?
    ensures Saved(records, r) == records[|Evicted(records)|..] + [r]
    ensures records == Evicted(records) + records[|Evicted(records)|..]
  {
    var all := records + [r];
    if |records| == STORE_CAP {
      assert |all| == STORE_CAP + 1;
      assert all[1..] == records[1..] + [r];
      assert records == records[..1] + records[1..];
    } else {
      assert records[0..] == records && [] + records == records;
    }
  }

  /** Appending leaks exactly the root of the evicted record; a new record with its own new root adds nothing. */
  lemma AppendLeaks(env: Env, s: Engine, t: Engine, r: Record, owned: set<nat>)
    requires Inv(env, s) && Find(s.store, r.id).None?
    requires t.store == Saved(s.store, r) && t.roots == s.roots + owned
    requires owned == LiveRoots([r]) && owned !! s.roots
    ensures Leaked(t) == Leaked(s) + LiveRoots(Evicted(s.store))
  {
    var kept := s.store[|Evicted(s.store)|..];
    AppendSplits(s.store, r);
    EvictedApart(s.store);
    DropLeaks(env, s, kept, Evicted(s.store));
    AppendedRoots(kept, r);
    KeptRootsExist(env, s, kept);
  }

  lemma EvictedApart(records: seq<Record>)
    requires UniqueIds(records) && |records| <= STORE_CAP
    ensures var kept := records[|Evicted(records)|..];
      forall q :: q in Evicted(records) <==> q in records && q !in kept
  {
    var kept := records[|Evicted(records)|..];
    assert records == Evicted(records) + kept;
    forall q | q in kept ensures q !in Evicted(records) {
      var i :| 0 <= i < |kept| && kept[i] == q;
      assert records[i + |Evicted(records)|] == q;
    }
  }

  lemma AppendedRoots(kept: seq<Record>, r: Record)
    ensures LiveRoots(kept + [r]) == LiveRoots(kept) + LiveRoots([r])
  {
    forall x ensures x in LiveRoots(kept + [r]) <==> x in LiveRoots(kept) || x in LiveRoots([r]) {
      LiveRootsMember(kept + [r], x);
      LiveRootsMember(kept, x);
      LiveRootsMember([r], x);
      assert forall q :: q in kept + [r] <==> q in kept || q in [r];
    }
  }

  lemma KeptRootsExist(env: Env, s: Engine, kept: seq<Record>)
    requires Inv(env, s) && forall q :: q in kept ==> q in s.store
    ensures LiveRoots(kept) <= s.roots
  {
    forall x | x in LiveRoots(kept) ensures x in s.roots {
      LiveRootsMember(kept, x);
      var q :| q in kept && LiveRoot(q) == Some(x);
      var i :| 0 <= i < |s.store| && s.store[i] == q;
      assert RecordOk(env, s, s.store[i]);
    }
  }

  // ------------------------------------------------------- the broker

  /** After the broker's own lookup found nothing, submission never answers with an existing job. */
  lemma BrokerLookupDecides(env: Env, s: Engine, b: Submission, at: int)
    requires BrokerPrior(s.store, b.request).None?
    ensures !SubmitJob(env, s, b, at).1.Existing?
  {
  }

  /** A run either creates a job or leaves the engine exactly as it was, whatever root it opened. */
  lemma BrokerCases(env: Env, s: Engine, b: Submission, at: int)
    requires b.root.Some? ==> b.root.value !in s.roots
    ensures var (t, outcome) := RunBroker(env, s, b, at);
      if outcome.Created? then
        && FindKey(s.store, b.request).None? && outcome.record == NewRecord(env, b, at)
        && t == s.(store := Saved(s.store, outcome.record), roots := s.roots + OwnedRoots(b),
                   workers := s.workers[b.id := Worker(Scheduled, false, false, None, None)],
                   rules := s.rules[b.id := b.rules])
      else t == s
  {
    assert s.roots + OwnedRoots(b) - OwnedRoots(b) == s.roots;
    if BrokerPrior(s.store, b.request).None? {
      BrokerLookupDecides(env, s.(roots := s.roots + OwnedRoots(b)), b, at);
    }
  }

  lemma NewJobPairwise(env: Env, s: Engine, b: Submission, at: int)
    requires Inv(env, s) && Legal(s, Timed(at, BrokerRun(b))) && FindKey(s.store, b.request).None?
    ensures Pairwise(s.store + [NewRecord(env, b, at)])
  {
    var r := NewRecord(env, b, at);
    forall i | 0 <= i < |s.store|
      ensures s.store[i].id != r.id
      ensures s.store[i].job.Some? ==> !SharedKey(s.store[i].job.value, r.job.value)
      ensures s.store[i].job.Some? ==> s.store[i].job.value.root == None || s.store[i].job.value.root != r.job.value.root
    {
      assert s.store[i] in s.store;
      if s.store[i].job.Some? { assert !SameKey(s.store[i].job.value, b.request); }
    }
  }

  lemma CreatedKeeps(env: Env, s: Engine, b: Submission, at: int)
    requires Inv(env, s) && s.clock == at && Legal(s, Timed(at, BrokerRun(b)))
    requires RunBroker(env, s, b, at).1.Created?
    ensures var t := RunBroker(env, s, b, at).0;
      Inv(env, t) && Explained(env, s, t) && Leaked(t) == Leaked(s) + LiveRoots(Evicted(s.store))
  {
    BrokerCases(env, s, b, at);
    var t := RunBroker(env, s, b, at).0;
    var r := NewRecord(env, b, at);
    var u := t.(store := s.store);
    NewJobPairwise(env, s, b, at);
    forall i | 0 <= i < |s.store| ensures RecordOk(env, u, s.store[i]) {
      assert RecordOk(env, s, s.store[i]);
    }
    forall id | id in u.workers ensures WorkerOk(env, u, id) {
      if id != b.id { assert WorkerOk(env, s, id); }
    }
    AppendInvariant(env, s, u, r);
    AppendExplained(env, s, t, r);
    forall x ensures x in OwnedRoots(b) <==> x in LiveRoots([r]) {
      LiveRootsMember([r], x);
    }
    AppendLeaks(env, s, t, r, OwnedRoots(b));
  }

  lemma SaveExecutionKeeps(env: Env, s: Engine, r: Record)
    requires Inv(env, s) && Legal(s, Timed(s.clock, SaveExecution(r)))
    ensures var t := s.(store := Saved(s.store, r));
      && Inv(env, t) && Explained(env, s, t)
      && Leaked(t) == Leaked(s) + (if Find(s.store, r.id).None? then LiveRoots(Evicted(s.store)) else {})
  {
    var t := s.(store := Saved(s.store, r));
    if Find(s.store, r.id).None? {
      assert Pairwise(s.store + [r]);
      AppendInvariant(env, s, s, r);
      AppendExplained(env, s, t, r);
      assert LiveRoots([r]) == {};
      AppendLeaks(env, s, t, r, {});
    } else {
      StoredRecordOk(env, s, r.id);
      ExecutionReplaced(env, s, t, r);
    }
  }

  /** Rewriting an ordinary execution record. */
  lemma ExecutionReplaced(env: Env, s: Engine, t: Engine, r: Record)
    requires Inv(env, s) && Legal(s, Timed(s.clock, SaveExecution(r))) && Find(s.store, r.id).Some?
    requires t == s.(store := Saved(s.store, r))
    ensures Inv(env, t) && Explained(env, s, t) && Leaked(t) == Leaked(s)
  {
    var i := Find(s.store, r.id).value;
    assert RecordOk(env, s, s.store[i]);
    SavedReplaces(s.store, r);
    forall k | 0 <= k < |t.store| ensures RecordOk(env, t, t.store[k]) {
      if k != i { assert RecordOk(env, s, s.store[k]); }
    }
    forall id | id in t.workers ensures WorkerOk(env, t, id) {
      assert WorkerOk(env, s, id);
    }
    forall q | q in t.store ensures Fresh(s, q) || exists p :: p in s.store && Progress(env, s, p, q) {
      if q != r {
        var k :| 0 <= k < |t.store| && t.store[k] == q;
        assert s.store[k] == q && q in s.store && Progress(env, s, q, q);
      }
    }
    forall x ensures x in LiveRoots(t.store) <==> x in LiveRoots(s.store) {
      assert forall k :: 0 <= k < |s.store| ==> LiveRoot(t.store[k]) == LiveRoot(s.store[k]);
    }
  }
}
