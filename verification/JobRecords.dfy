/** Capability jobs, execution records and the bounded durable store that holds them. */
module JobRecords {
  import opened Wrappers
  import opened Strings
  import opened JsonText
  import opened JsonInjectivity
  import opened ResultEnforcement
  import opened OutputArtifact

  const STORE_CAP := 300
  const JOB_MAX_STRING := 256
  const JOB_MAX_INPUT_BYTES := 64 * 1024
  const JOB_MAX_TIMEOUT_MS := 300_000

  // ------------------------------------------------------- requests

  datatype JobRequest = JobRequest(
    capabilityId: Str, capabilityVersion: Str,
    sourceId: Str, sessionId: Str, runId: Str, requestId: Str,
    idempotencyKey: Str, requestedBy: Str,
    input: Json,
    timeoutMs: Option<int>)

  predicate BoundedString(s: Str) { 0 < |s| <= JOB_MAX_STRING }

  predicate RequestValid(bytes: Measure, r: JobRequest)
  {
    && BoundedString(r.capabilityId) && BoundedString(r.capabilityVersion)
    && BoundedString(r.sourceId) && BoundedString(r.sessionId) && BoundedString(r.runId)
    && BoundedString(r.requestId) && BoundedString(r.idempotencyKey) && BoundedString(r.requestedBy)
    && (r.timeoutMs.Some? ==> 1 <= r.timeoutMs.value <= JOB_MAX_TIMEOUT_MS)
    && var size := bytes(if r.input == Undefined then Null else r.input);
       size.Some? && size.value <= JOB_MAX_INPUT_BYTES
  }

  function FingerprintKeys(): (r: seq<Str>)
    ensures |r| == 8
  {
    [Lit("capabilityId"), Lit("capabilityVersion"), Lit("sourceId"), Lit("sessionId"),
     Lit("runId"), Lit("idempotencyKey"), Lit("requestedBy"), Lit("input")]
  }

  function FingerprintValues(r: JobRequest): (v: seq<Json>)
    ensures |v| == 8
  {
    [String(r.capabilityId), String(r.capabilityVersion), String(r.sourceId), String(r.sessionId),
     String(r.runId), String(r.idempotencyKey), String(r.requestedBy), r.input]
  }

  /** The object whose canonical text is hashed; hashing is taken to be injective, so the text stands for the hash. */
  function FingerprintObject(r: JobRequest): Json
  {
    Object(Zip(FingerprintKeys(), FingerprintValues(r)))
  }

  function JobFingerprint(format: NumberFormat, r: JobRequest): Str
  {
    Print(format, FingerprintObject(r))
  }

  // ------------------------------------------------------- records

  datatype JobLifecycle = Queued | Running | Validating | Cancelling | Ended(status: Status)

  datatype StepLabel = AtQueued | AtRunning | AtValidating | AtCancelling | AtEnd(status: Status) | Reported(text: Str)

  datatype Job = Job(
    capabilityId: Str, capabilityVersion: Str,
    sourceId: Str, sessionId: Str, runId: Str, requestId: Str, idempotencyKey: Str,
    fingerprint: Str,
    lifecycle: JobLifecycle,
    step: StepLabel,
    startedAt: Option<int>,
    terminalAt: Option<int>,
    cancelRequestedAt: Option<int>,
    root: Option<nat>,
    artifact: Option<Artifact>,
    result: Option<StoredResult>)

  datatype ExecutionState =
    | ExecPending | ExecRequested | ExecValidating | ExecDispatching | ExecRunning | ExecExecuting | ExecCompleting
    | ExecCompleted | ExecFailed | ExecCancelled | ExecExpired | ExecRecovered

  predicate ActiveState(state: ExecutionState)
  {
    match state
    case ExecPending | ExecRequested | ExecValidating | ExecDispatching | ExecRunning | ExecExecuting | ExecCompleting => true
    case _ => false
  }

  datatype Record = Record(
    id: nat,
    state: ExecutionState,
    createdAt: int,
    updatedAt: int,
    leaseExpiresAt: Option<int>,
    auditReferences: seq<nat>,       // a job's evidence is identified by the job
    job: Option<Job>)

  /** What a resubmission is matched on. */
  predicate SameKey(j: Job, r: JobRequest)
  {
    j.sourceId == r.sourceId && j.sessionId == r.sessionId && j.runId == r.runId && j.idempotencyKey == r.idempotencyKey
  }

  predicate SharedKey(j: Job, k: Job)
  {
    j.sourceId == k.sourceId && j.sessionId == k.sessionId && j.runId == k.runId && j.idempotencyKey == k.idempotencyKey
  }

  // ------------------------------------------------------- the store

  /** `records.findIndex(item => item.executionId === id)`. */
  function Find(records: seq<Record>, id: nat): (r: Option<nat>)
    ensures r.Some? ==> r.value < |records| && records[r.value].id == id
    ensures r.Some? ==> forall k :: 0 <= k < r.value ==> records[k].id != id
    ensures r.None? ==> forall k :: 0 <= k < |records| ==> records[k].id != id
  {
    if records == [] then None
    else if records[0].id == id then Some(0)
    else match Find(records[1..], id) case None => None case Some(i) => Some(i + 1)
  }

  /** The first stored job with the request's idempotency identity. */
  function FindKey(records: seq<Record>, q: JobRequest): (r: Option<nat>)
    ensures r.Some? ==> r.value < |records| && records[r.value].job.Some? && SameKey(records[r.value].job.value, q)
    ensures r.None? ==> forall k :: 0 <= k < |records| && records[k].job.Some? ==> !SameKey(records[k].job.value, q)
  {
    if records == [] then None
    else if records[0].job.Some? && SameKey(records[0].job.value, q) then Some(0)
    else match FindKey(records[1..], q) case None => None case Some(i) => Some(i + 1)
  }

  /** `records.slice(-n)`. */
  function Last<T>(n: nat, s: seq<T>): (r: seq<T>)
    ensures |r| <= n
  {
    if |s| <= n then s else Last(n, s[1..])
  }

  lemma {:induction false} LastIsSlice<T>(n: nat, s: seq<T>)
    ensures Last(n, s) == if |s| <= n then s else s[|s| - n..]
  {
    if |s| > n { LastIsSlice(n, s[1..]); }
  }

  /** `save`: replace the record with this id or append it, and keep the newest records. */
  function Saved(records: seq<Record>, r: Record): seq<Record>
  {
    var all := match Find(records, r.id) case Some(i) => records[i := r] case None => records + [r];
    if |all| <= STORE_CAP then all else all[|all| - STORE_CAP..]
  }

  ghost predicate UniqueIds(records: seq<Record>)
  {
    forall i, j :: 0 <= i < j < |records| ==> records[i].id != records[j].id
  }

  ghost predicate UniqueKeys(records: seq<Record>)
  {
    forall i, j :: 0 <= i < j < |records| && records[i].job.Some? && records[j].job.Some? ==>
      !SharedKey(records[i].job.value, records[j].job.value)
  }
}
