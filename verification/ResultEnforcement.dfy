/** The gate a successful handler result passes before it may be stored, and the record that is stored. */
module ResultEnforcement {
  import opened Wrappers
  import opened Strings
  import opened JsonText
  import opened SchemaValidation
  import opened Redaction

  const MAX_OUTPUT_BYTES := 1024 * 1024
  const JOB_MAX_RESULT_BYTES := 256 * 1024

  datatype Status = Succeeded | Failed | Cancelled

  datatype OutputState = Inline | EvidenceReference | Rejected

  datatype FailureCode =
    | InvalidJson | OutputLimitExceeded | OutputSchemaInvalid | ValidationUnavailable | ValidationFailed
    | HandlerFailed | JobTimeout | JobCancelled | WorkerNotActive | WorkerLost | JobPersistenceFailed
    | HandlerCode(code: Str)

  datatype HandlerResult = HandlerResult(
    status: Status,
    output: Json,
    outputBytes: Option<nat>,
    outputState: Option<OutputState>,
    failure: Option<FailureCode>)

  datatype Overflow = ToEvidence | Truncate | Reject

  datatype Check = InputSchema | OutputSchema | ExitStatus | FileIntegrity | Verifier | EvidenceCheck

  datatype OutputRules = OutputRules(
    schema: Schema,
    redaction: Policy,
    maxBytes: int, maxInlineBytes: int, maxItems: int,
    overflow: Overflow,
    validationRequired: bool,
    checks: seq<Check>,
    verifierIds: seq<Str>)

  /** What looking up and awaiting one verifier came to; a verifier that throws has refused. */
  datatype Verdict = Unavailable | Refused | Accepted

  /** Size of the serialized value, `None` when it cannot be serialized. */
  type Measure = Json -> Option<nat>

  /** `JSON.stringify(undefined)` is not text. */
  ghost predicate GoodMeasure(bytes: Measure)
  {
    bytes(Undefined) == None
  }

  function FailedResult(code: FailureCode, bytes: Option<nat>): HandlerResult
  {
    HandlerResult(Failed, Undefined, bytes, Some(Rejected), Some(code))
  }

  function OverLimit(rules: OutputRules, bytes: nat, items: nat): bool
  {
    bytes > rules.maxBytes || bytes > rules.maxInlineBytes || items > rules.maxItems
  }

  predicate RunsVerifiers(rules: OutputRules)
  {
    rules.validationRequired && (Verifier in rules.checks || FileIntegrity in rules.checks)
  }

  predicate AllAccept(ids: seq<Str>, verdict: Str -> Verdict)
  {
    forall i :: 0 <= i < |ids| ==> verdict(ids[i]) == Accepted
  }

  /** The first verifier that does not accept decides the failure. */
  function VerifierFailure(ids: seq<Str>, verdict: Str -> Verdict): (r: Option<FailureCode>)
    ensures r == None <==> AllAccept(ids, verdict)
  {
    if ids == [] then None
    else if verdict(ids[0]) == Unavailable then Some(ValidationUnavailable)
    else if verdict(ids[0]) == Refused then Some(ValidationFailed)
    else
      assert forall i :: 0 < i < |ids| ==> ids[i] == ids[1..][i - 1];
      VerifierFailure(ids[1..], verdict)
  }

  /** The value of `enforceCapabilityResult`. */
  function Enforced(rules: OutputRules, bytes: Measure, verdict: Str -> Verdict, result: HandlerResult): HandlerResult
  {
    if result.status != Succeeded then result
    else if bytes(result.output) == None then FailedResult(InvalidJson, None)
    else if bytes(result.output).value > MAX_OUTPUT_BYTES then
      FailedResult(OutputLimitExceeded, bytes(result.output))
    else
      var output := Redacted(rules.redaction, result.output);
      if bytes(output) == None then FailedResult(InvalidJson, None)
      else if !Conforms(rules.schema, output) || NodeCount(rules.schema, output) > MAX_NODES then
        FailedResult(OutputSchemaInvalid, bytes(output))
      else if OverLimit(rules, bytes(output).value, ItemCount(output)) then
        if rules.overflow == ToEvidence then
          HandlerResult(Succeeded, Undefined, bytes(output), Some(EvidenceReference), None)
        else FailedResult(OutputLimitExceeded, bytes(output))
      else if RunsVerifiers(rules) && VerifierFailure(rules.verifierIds, verdict).Some? then
        FailedResult(VerifierFailure(rules.verifierIds, verdict).value, bytes(output))
      else HandlerResult(Succeeded, output, bytes(output), Some(Inline), None)
  }

  method EnforceCapabilityResult(rules: OutputRules, bytes: Measure, verdict: Str -> Verdict, result: HandlerResult)
    returns (r: HandlerResult)
    ensures r == Enforced(rules, bytes, verdict, result)
  {
    if result.status != Succeeded { return result; }
    var rawBytes := bytes(result.output);
    if rawBytes == None { return FailedResult(InvalidJson, None); }
    if rawBytes.value > MAX_OUTPUT_BYTES { return FailedResult(OutputLimitExceeded, rawBytes); }
    var redacted := RedactValue(rules.redaction, result.output);
    var outputBytes := bytes(redacted);
    if outputBytes == None { return FailedResult(InvalidJson, None); }
    var conforming := Accepts(rules.schema, redacted);
    if !conforming { return FailedResult(OutputSchemaInvalid, outputBytes); }
    if OverLimit(rules, outputBytes.value, ItemCount(redacted)) {
      if rules.overflow == ToEvidence {
        return HandlerResult(Succeeded, Undefined, outputBytes, Some(EvidenceReference), None);
      }
      return FailedResult(OutputLimitExceeded, outputBytes);
    }
    if RunsVerifiers(rules) {
      for i := 0 to |rules.verifierIds|
        invariant VerifierFailure(rules.verifierIds, verdict) == VerifierFailure(rules.verifierIds[i..], verdict)
      {
        assert rules.verifierIds[i..][1..] == rules.verifierIds[i + 1..];
        match verdict(rules.verifierIds[i]) {
          case Unavailable => return FailedResult(ValidationUnavailable, outputBytes);
          case Refused => return FailedResult(ValidationFailed, outputBytes);
          case Accepted =>
        }
      }
    }
    r := HandlerResult(Succeeded, redacted, outputBytes, Some(Inline), None);
  }

  // ------------------------------------------------------- when enforcement succeeds, and how it fails

  /** The output serializes within the hard limit, and once redacted serializes and conforms. */
  ghost predicate Presentable(rules: OutputRules, bytes: Measure, handler: HandlerResult)
  {
    var output := Redacted(rules.redaction, handler.output);
    && bytes(handler.output).Some? && bytes(handler.output).value <= 1_048_576
    && bytes(output).Some?
    && Conforms(rules.schema, output) && NodeCount(rules.schema, output) <= 10_000
  }

  /** The redacted output exceeds a declared limit. */
  ghost predicate Exceeds(rules: OutputRules, bytes: Measure, output: Json)
    requires bytes(output).Some?
  {
    !(bytes(output).value <= rules.maxBytes && bytes(output).value <= rules.maxInlineBytes && ItemCount(output) <= rules.maxItems)
  }

  /** Required verifiers run for the verifier and the file-integrity check. */
  ghost predicate MustVerify(rules: OutputRules)
  {
    rules.validationRequired && exists c :: c in rules.checks && (c == Verifier || c == FileIntegrity)
  }

  /** What enforcement lets pass: presentable output, within its limits and verified, or else meant for evidence. */
  ghost predicate Passes(rules: OutputRules, bytes: Measure, verdict: Str -> Verdict, handler: HandlerResult)
  {
    && Presentable(rules, bytes, handler)
    && if Exceeds(rules, bytes, Redacted(rules.redaction, handler.output)) then rules.overflow == ToEvidence
       else MustVerify(rules) ==> forall id :: id in rules.verifierIds ==> verdict(id) == Accepted
  }

  lemma MustVerifyMeans(rules: OutputRules)
    ensures RunsVerifiers(rules) <==> MustVerify(rules)
  {
  }

  lemma AllAcceptMeans(ids: seq<Str>, verdict: Str -> Verdict)
    ensures AllAccept(ids, verdict) <==> forall id :: id in ids ==> verdict(id) == Accepted
  {
    if forall id :: id in ids ==> verdict(id) == Accepted {
      assert forall i :: 0 <= i < |ids| ==> ids[i] in ids;
    }
  }

  /**
   * A handler success passes enforcement exactly when these conditions hold. It then carries its redacted output inline,
   * or only a reference when that output exceeds a declared limit.
   */
  lemma EnforcementSucceedsExactlyWhen(rules: OutputRules, bytes: Measure, verdict: Str -> Verdict, handler: HandlerResult)
    requires handler.status == Succeeded
    ensures var e := Enforced(rules, bytes, verdict, handler);
      var output := Redacted(rules.redaction, handler.output);
      && (e.status == Succeeded <==> Passes(rules, bytes, verdict, handler))
      && (e.status == Succeeded ==>
            e == if Exceeds(rules, bytes, output) then HandlerResult(Succeeded, Undefined, bytes(output), Some(EvidenceReference), None)
                 else HandlerResult(Succeeded, output, bytes(output), Some(Inline), None))
  {
    MustVerifyMeans(rules);
    AllAcceptMeans(rules.verifierIds, verdict);
  }

  /** A result that is no success is passed on as it is. */
  lemma EnforcementPassesFailuresOn(rules: OutputRules, bytes: Measure, verdict: Str -> Verdict, handler: HandlerResult)
    ensures handler.status != Succeeded <==> Enforced(rules, bytes, verdict, handler) == handler && handler.status != Succeeded
  {
  }

  /** Verifier `k` is the first that does not accept. */
  ghost predicate FirstRefusal(ids: seq<Str>, verdict: Str -> Verdict, k: nat)
  {
    && k < |ids| && verdict(ids[k]) != Accepted
    && forall i :: 0 <= i < k ==> verdict(ids[i]) == Accepted
  }

  lemma {:induction false} FailureOfFirst(ids: seq<Str>, verdict: Str -> Verdict, k: nat)
    requires FirstRefusal(ids, verdict, k)
    ensures VerifierFailure(ids, verdict) == Some(if verdict(ids[k]) == Unavailable then ValidationUnavailable else ValidationFailed)
  {
    if k > 0 {
      forall i | 0 <= i < k - 1 ensures verdict(ids[1..][i]) == Accepted { assert ids[1..][i] == ids[i + 1]; }
      FailureOfFirst(ids[1..], verdict, k - 1);
    }
  }

  lemma {:induction false} SomeFirstRefusal(ids: seq<Str>, verdict: Str -> Verdict) returns (k: nat)
    requires exists id :: id in ids && verdict(id) != Accepted
    ensures FirstRefusal(ids, verdict, k)
  {
    if verdict(ids[0]) != Accepted {
      k := 0;
    } else {
      var id :| id in ids && verdict(id) != Accepted;
      assert id in ids[1..];
      var j := SomeFirstRefusal(ids[1..], verdict);
      k := j + 1;
      forall i | 0 <= i < k ensures verdict(ids[i]) == Accepted { if i > 0 { assert ids[1..][i - 1] == ids[i]; } }
    }
  }

  /** Which failure enforcement reports: the first condition that does not hold decides, with no output. */
  lemma EnforcementFailsWith(rules: OutputRules, bytes: Measure, verdict: Str -> Verdict, handler: HandlerResult) returns (k: nat)
    requires handler.status == Succeeded && !Passes(rules, bytes, verdict, handler)
    ensures var e := Enforced(rules, bytes, verdict, handler);
      var raw, output := bytes(handler.output), Redacted(rules.redaction, handler.output);
      && e.status == Failed && e.output == Undefined && e.outputState == Some(Rejected)
      && if raw == None then e.failure == Some(InvalidJson) && e.outputBytes == None
         else if raw.value > 1_048_576 then e.failure == Some(OutputLimitExceeded) && e.outputBytes == raw
         else if bytes(output) == None then e.failure == Some(InvalidJson) && e.outputBytes == None
         else if !(Conforms(rules.schema, output) && NodeCount(rules.schema, output) <= 10_000) then
           e.failure == Some(OutputSchemaInvalid) && e.outputBytes == bytes(output)
         else if Exceeds(rules, bytes, output) then e.failure == Some(OutputLimitExceeded) && e.outputBytes == bytes(output)
         else
           && e.outputBytes == bytes(output) && FirstRefusal(rules.verifierIds, verdict, k)
           && e.failure == Some(if verdict(rules.verifierIds[k]) == Unavailable then ValidationUnavailable else ValidationFailed)
  {
    k := 0;
    MustVerifyMeans(rules);
    if Presentable(rules, bytes, handler) && !Exceeds(rules, bytes, Redacted(rules.redaction, handler.output)) {
      k := SomeFirstRefusal(rules.verifierIds, verdict);
      FailureOfFirst(rules.verifierIds, verdict, k);
    }
  }

  // ------------------------------------------------------- what is stored

  datatype StoredResult = StoredResult(
    status: Status,
    output: Json,
    outputBytes: Option<nat>,
    outputState: Option<OutputState>,
    failure: Option<FailureCode>)

  /** The output half of `terminalJobResult`, with its own inline cap. */
  function TerminalResult(bytes: Measure, result: HandlerResult): StoredResult
  {
    var keptBytes :=
      if result.output == Undefined && result.outputBytes.Some? then result.outputBytes else bytes(result.output);
    var kept :=
      if result.output == Undefined && result.outputBytes.Some? then Undefined
      else if keptBytes.Some? && keptBytes.value <= JOB_MAX_RESULT_BYTES then result.output
      else Undefined;
    var state :=
      if kept != Undefined then (if result.outputState.Some? then result.outputState else Some(Inline))
      else if result.output != Undefined then Some(EvidenceReference)
      else result.outputState;
    StoredResult(result.status, kept, keptBytes, state, result.failure)
  }

  /** Everything a result must satisfy to be stored inline. */
  ghost predicate InlineJustified(rules: OutputRules, bytes: Measure, verdict: Str -> Verdict, handler: HandlerResult)
  {
    var output := Redacted(rules.redaction, handler.output);
    && handler.status == Succeeded && Passes(rules, bytes, verdict, handler)
    && !Exceeds(rules, bytes, output) && bytes(output).value <= 262_144
  }

  /** An enforced success is stored inline exactly when it is justified, and then it is the redacted output. */
  lemma StoredInline(rules: OutputRules, bytes: Measure, verdict: Str -> Verdict, handler: HandlerResult)
    requires GoodMeasure(bytes)
    ensures var enforced := Enforced(rules, bytes, verdict, handler);
      var stored := TerminalResult(bytes, enforced);
      enforced.status == Succeeded && stored.outputState == Some(Inline) <==> InlineJustified(rules, bytes, verdict, handler)
    ensures var enforced := Enforced(rules, bytes, verdict, handler);
      var stored := TerminalResult(bytes, enforced);
      enforced.status == Succeeded && stored.outputState == Some(Inline) ==>
        stored.output == Redacted(rules.redaction, handler.output) && stored.outputBytes == bytes(stored.output)
  {
    if handler.status == Succeeded { EnforcementSucceedsExactlyWhen(rules, bytes, verdict, handler); }
  }

  /**
   * A handler success is stored as a success exactly when it passes. It is stored without a failure, and by reference
   * alone exactly when its output exceeds a declared limit or is over 256 KiB.
   */
  lemma StoredSuccess(rules: OutputRules, bytes: Measure, verdict: Str -> Verdict, handler: HandlerResult)
    requires GoodMeasure(bytes) && handler.status == Succeeded
    ensures var stored := TerminalResult(bytes, Enforced(rules, bytes, verdict, handler));
      var output := Redacted(rules.redaction, handler.output);
      && (stored.status == Succeeded <==> Passes(rules, bytes, verdict, handler))
      && (stored.status == Succeeded ==>
            && stored.failure == None && stored.outputBytes == bytes(output)
            && if Exceeds(rules, bytes, output) || bytes(output).value > 262_144 then
                 stored.outputState == Some(EvidenceReference) && stored.output == Undefined
               else stored.outputState == Some(Inline) && stored.output == output)
  {
    EnforcementSucceedsExactlyWhen(rules, bytes, verdict, handler);
  }
}
