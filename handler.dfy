/** `src/lambda_function.py`: discover the tagged instances, run
    `stop_instance` on each one in discovery order, fold the results into
    counts and an error list, and answer with a status code and a body. */
module Handler {
  import opened Outcomes
  import opened Text
  import opened Ec2Types
  import opened Discovery
  import opened Shutdown

  /** An element of the body's `errors` list: `{"instance_id", "error"}` for
      a failed instance, a bare message in an error response. */
  datatype ErrorEntry =
    | InstanceError(instanceId: string, error: Option<string>)
    | FatalError(message: string)

  /** The dictionary `_generate_summary` returns. */
  datatype Summary = Summary(processed: nat, stopped: nat, skipped: nat, errors: seq<ErrorEntry>)

  /** The response body, before `json.dumps`. */
  datatype Body = Body(
    processedInstances: nat, stoppedInstances: nat, skippedInstances: nat,
    errors: seq<ErrorEntry>, summary: string)

  /** `{"statusCode": ..., "body": ...}`. */
  datatype Response = Response(statusCode: int, body: Body)

  /** The response, and the instance ids `stop_instance` was called for, in order. */
  datatype Invocation = Invocation(response: Response, attempted: seq<string>)

  const NoInstancesSummary: string := "No instances found with shutdown tag"
  const FailureSummary: string := "Lambda function failed with unexpected error"
  const InitFailurePrefix: string := "Failed to initialize EC2 service: "
  const DiscoveryFailurePrefix: string := "Failed to discover instances: "

  function ProcessingErrorMessage(id: string, cause: string): string
  {
    "Unexpected error processing instance " + id + ": " + cause
  }

  // ---------------------------------------------------------------- summary

  /** A successful result whose instance was already stopped or stopping. */
  predicate CountsAsSkipped(r: ShutdownResult)
  {
    r.success && AlreadyStopping(r.previousState)
  }

  /** Any other successful result, whatever its previous state, "" included. */
  predicate CountsAsStopped(r: ShutdownResult)
  {
    r.success && !AlreadyStopping(r.previousState)
  }

  function Entry(r: ShutdownResult): ErrorEntry
  {
    InstanceError(r.instanceId, r.error)
  }

  /** The counters and error list of `_generate_summary`'s loop after the given results. */
  datatype Tally = Tally(stopped: nat, skipped: nat, errors: seq<ErrorEntry>)

  function TallyOf(results: seq<ShutdownResult>): Tally
  {
    if results == [] then Tally(0, 0, [])
    else
      var t := TallyOf(results[..|results| - 1]);
      var r := results[|results| - 1];
      if r.success then
        if AlreadyStopping(r.previousState) then Tally(t.stopped, t.skipped + 1, t.errors)
        else Tally(t.stopped + 1, t.skipped, t.errors)
      else Tally(t.stopped, t.skipped, t.errors + [Entry(r)])
  }

  /** `_generate_summary(results)`. */
  function Summarize(results: seq<ShutdownResult>): Summary
  {
    var t := TallyOf(results);
    Summary(|results|, t.stopped, t.skipped, t.errors)
  }

  /** `_generate_summary`: its loop over the results. */
  method GenerateSummary(results: seq<ShutdownResult>) returns (s: Summary)
    ensures s == Summarize(results)
  {
    var processed := |results|;
    var stopped, skipped := 0, 0;
    var errors: seq<ErrorEntry> := [];
    for i := 0 to |results|
      invariant TallyOf(results[..i]) == Tally(stopped, skipped, errors)
    {
      var r := results[i];
      if r.success {
        if AlreadyStopping(r.previousState) {
          skipped := skipped + 1;
        } else {
          stopped := stopped + 1;
        }
      } else {
        errors := errors + [Entry(r)];
      }
      assert results[..i + 1][..i] == results[..i];
    }
    assert results[..|results|] == results;
    s := Summary(processed, stopped, skipped, errors);
  }

  /** Conservation: every processed result is counted exactly once, as
      stopped, as skipped or as an error. */
  lemma {:induction false} SummaryConservation(results: seq<ShutdownResult>)
    ensures var s := Summarize(results);
      s.processed == |results| == s.stopped + s.skipped + |s.errors|
  {
    if results != [] {
      SummaryConservation(results[..|results| - 1]);
    }
  }

  /** The number of results satisfying `p`. */
  function CountWhere(results: seq<ShutdownResult>, p: ShutdownResult -> bool): nat
  {
    if results == [] then 0
    else CountWhere(results[..|results| - 1], p) + (if p(results[|results| - 1]) then 1 else 0)
  }

  /** Each counter counts exactly its class, and failures are never counted
      as stopped or skipped. */
  lemma {:induction false} SummaryCountsClasses(results: seq<ShutdownResult>)
    ensures var s := Summarize(results);
      && s.stopped == CountWhere(results, CountsAsStopped)
      && s.skipped == CountWhere(results, CountsAsSkipped)
      && |s.errors| == CountWhere(results, (r: ShutdownResult) => !r.success)
  {
    if results != [] {
      SummaryCountsClasses(results[..|results| - 1]);
    }
  }

  /** The errors are exactly the failed results as `{instance_id, error}`,
      in input order: `idx` lists the failed positions, ascending. */
  lemma {:induction false} SummaryErrorsAreFailures(results: seq<ShutdownResult>) returns (idx: seq<nat>)
    ensures var errors := Summarize(results).errors;
      && |idx| == |errors|
      && (forall j :: 0 <= j < |idx| ==> idx[j] < |results| && !results[idx[j]].success && errors[j] == Entry(results[idx[j]]))
      && (forall j, j' :: 0 <= j < j' < |idx| ==> idx[j] < idx[j'])
      && (forall k :: 0 <= k < |results| && !results[k].success ==> k in idx)
  {
    if results == [] {
      idx := [];
    } else {
      var n := |results|;
      var init := results[..n - 1];
      idx := SummaryErrorsAreFailures(init);
      forall j | 0 <= j < |idx| ensures results[idx[j]] == init[idx[j]] { }
      if !results[n - 1].success {
        idx := idx + [n - 1];
      }
      forall k | 0 <= k < n && !results[k].success ensures k in idx {
        if k < n - 1 {
          assert init[k] == results[k];
        }
      }
    }
  }

  /** The status-code rule: 207 when some instance failed (whether or not any
      was stopped), 200 otherwise. */
  function StatusCode(s: Summary): (code: int)
    ensures code == 200 <==> s.errors == []
    ensures code == 207 <==> s.errors != []
  {
    if s.errors != [] && s.stopped == 0 then 207 // all operations failed
    else if s.errors != [] then 207              // some operations failed
    else 200
  }

  /** The recap line of a non-empty run. */
  function SummaryLine(s: Summary): string
  {
    "Processed " + NatToString(s.processed) + " instances, stopped " + NatToString(s.stopped)
      + ", skipped " + NatToString(s.skipped) + ", errors: " + NatToString(|s.errors|)
  }

  // -------------------------------------------------------------- responses

  /** `_create_response`, with the body kept as a record. */
  function CreateResponse(statusCode: int, body: Body): (r: Response)
  {
    Response(statusCode, body)
  }

  /** `_create_error_response(message)`. */
  function ErrorResponse(message: string): (r: Response)
    ensures r.statusCode == 500
    ensures r.body.processedInstances == r.body.stoppedInstances == r.body.skippedInstances == 0
    ensures r.body.errors == [FatalError(message)]
  {
    CreateResponse(500, Body(0, 0, 0, [FatalError(message)], FailureSummary))
  }

  /** The response to a discovery that found nothing. */
  function NoInstancesResponse(): (r: Response)
  {
    CreateResponse(200, Body(0, 0, 0, [], NoInstancesSummary))
  }

  /** The response to a non-empty run. */
  function BatchResponse(s: Summary): Response
  {
    CreateResponse(StatusCode(s), Body(s.processed, s.stopped, s.skipped, s.errors, SummaryLine(s)))
  }

  // ----------------------------------------------------- per-instance loop

  /** One iteration of the handler's loop. `leak(id)` is the exception, if
      any, that the `stop_instance` call for `id` raises; the handler then
      records a failed result carrying the discovered state. */
  function ProcessOne(api: Ec2Api, leak: string -> Option<string>, instance: InstanceInfo): (r: ShutdownResult)
    ensures r.instanceId == instance.instanceId
    ensures r.success <==> r.error.None?
  {
    match leak(instance.instanceId)
    case Some(cause) =>
      ShutdownResult(instance.instanceId, false,
        Some(ProcessingErrorMessage(instance.instanceId, cause)), instance.state)
    case None => StopInstance(api, instance.instanceId).result
  }

  function Results(api: Ec2Api, leak: string -> Option<string>, instances: seq<InstanceInfo>): seq<ShutdownResult>
  {
    seq(|instances|, k requires 0 <= k < |instances| => ProcessOne(api, leak, instances[k]))
  }

  function Ids(instances: seq<InstanceInfo>): seq<string>
  {
    seq(|instances|, k requires 0 <= k < |instances| => instances[k].instanceId)
  }

  /** The handler's loop: one `stop_instance` call and one result per
      instance, in discovery order. */
  method ProcessInstances(api: Ec2Api, leak: string -> Option<string>, instances: seq<InstanceInfo>)
    returns (results: seq<ShutdownResult>, attempted: seq<string>)
    ensures |results| == |attempted| == |instances|
    ensures forall k :: 0 <= k < |instances| ==>
      results[k] == ProcessOne(api, leak, instances[k]) && attempted[k] == instances[k].instanceId
  {
    results, attempted := [], [];
    for i := 0 to |instances|
      invariant |results| == |attempted| == i
      invariant forall k :: 0 <= k < i ==>
        results[k] == ProcessOne(api, leak, instances[k]) && attempted[k] == instances[k].instanceId
    {
      var instance := instances[i];
      attempted := attempted + [instance.instanceId];
      match leak(instance.instanceId) {
        case Some(cause) =>
          results := results + [ShutdownResult(instance.instanceId, false,
            Some(ProcessingErrorMessage(instance.instanceId, cause)), instance.state)];
        case None =>
          var o := StopInstance(api, instance.instanceId);
          results := results + [o.result];
      }
    }
  }

  // ---------------------------------------------------------------- handler

  /** What `lambda_handler` answers. `initError` is the exception, if any,
      that constructing `EC2Service` raises. */
  function Handle(tagKey: string, tagValue: string, initError: Option<string>,
                  api: Ec2Api, leak: string -> Option<string>): Invocation
  {
    if initError.Some? then Invocation(ErrorResponse(InitFailurePrefix + initError.value), [])
    else
      var discovered := Discover(api, tagKey, tagValue);
      if !discovered.Ok? then Invocation(ErrorResponse(DiscoveryFailurePrefix + discovered.msg), [])
      else if discovered.value == [] then Invocation(NoInstancesResponse(), [])
      else
        var instances := discovered.value;
        Invocation(BatchResponse(Summarize(Results(api, leak, instances))), Ids(instances))
  }

  /** `lambda_handler`. */
  method LambdaHandler(tagKey: string, tagValue: string, initError: Option<string>,
                       api: Ec2Api, leak: string -> Option<string>)
    returns (response: Response, attempted: seq<string>)
    ensures Invocation(response, attempted) == Handle(tagKey, tagValue, initError, api, leak)
  {
    attempted := [];
    if initError.Some? {
      response := ErrorResponse(InitFailurePrefix + initError.value);
      return;
    }
    var discovered := GetInstancesWithTag(api, tagKey, tagValue);
    if !discovered.Ok? {
      response := ErrorResponse(DiscoveryFailurePrefix + discovered.msg);
      return;
    }
    var instances := discovered.value;
    if instances == [] {
      response := NoInstancesResponse();
      return;
    }
    var results;
    results, attempted := ProcessInstances(api, leak, instances);
    assert results == Results(api, leak, instances);
    assert attempted == Ids(instances);
    var summary := GenerateSummary(results);
    var statusCode := StatusCode(summary);
    response := CreateResponse(statusCode, Body(summary.processed, summary.stopped, summary.skipped,
                                                summary.errors, SummaryLine(summary)));
  }

  // ------------------------------------------------------ handler properties

  /** A failed service construction answers 500 with the prefixed message,
      zero counts, and no instance touched. */
  lemma HandleInitFailure(tagKey: string, tagValue: string, e: string, api: Ec2Api, leak: string -> Option<string>)
    ensures var inv := Handle(tagKey, tagValue, Some(e), api, leak);
      && inv.response == Response(500, Body(0, 0, 0, [FatalError(InitFailurePrefix + e)], FailureSummary))
      && inv.attempted == []
  {
  }

  /** A failed discovery answers 500 with the prefixed message, zero counts,
      and no instance touched. */
  lemma HandleDiscoveryFailure(tagKey: string, tagValue: string, api: Ec2Api, leak: string -> Option<string>)
    requires !Discover(api, tagKey, tagValue).Ok?
    ensures var inv := Handle(tagKey, tagValue, None, api, leak);
      && inv.response == Response(500, Body(0, 0, 0,
           [FatalError(DiscoveryFailurePrefix + Discover(api, tagKey, tagValue).msg)], FailureSummary))
      && inv.attempted == []
  {
  }

  /** An empty discovery answers 200 with zero counts, no errors, the
      "no instances" recap, and no `stop_instance` call. */
  lemma HandleNoInstances(tagKey: string, tagValue: string, api: Ec2Api, leak: string -> Option<string>)
    requires Discover(api, tagKey, tagValue) == Ok([])
    ensures Handle(tagKey, tagValue, None, api, leak)
         == Invocation(Response(200, Body(0, 0, 0, [], NoInstancesSummary)), [])
  {
  }

  /** A non-empty discovery: `stop_instance` is called once per instance in
      discovery order, each instance yields exactly one result, the counts
      are conserved, and the status is 200 exactly when nothing failed. */
  lemma HandleBatch(tagKey: string, tagValue: string, api: Ec2Api, leak: string -> Option<string>)
    requires Discover(api, tagKey, tagValue).Ok? && Discover(api, tagKey, tagValue).value != []
    ensures var instances := Discover(api, tagKey, tagValue).value;
      var results := Results(api, leak, instances);
      var inv := Handle(tagKey, tagValue, None, api, leak);
      var body := inv.response.body;
      && inv.attempted == Ids(instances)
      && |results| == |instances|
      && (forall k :: 0 <= k < |instances| ==> results[k].instanceId == instances[k].instanceId)
      && body.processedInstances == |instances|
      && body.processedInstances == body.stoppedInstances + body.skippedInstances + |body.errors|
      && (inv.response.statusCode == 200 <==> body.errors == [])
      && (inv.response.statusCode == 207 <==> body.errors != [])
      && body.summary == SummaryLine(Summarize(results))
  {
    var instances := Discover(api, tagKey, tagValue).value;
    SummaryConservation(Results(api, leak, instances));
  }

  /** A `stop_instance` call that raises yields a failed result with the
      "processing" message and the state seen at discovery; the error list
      then names that instance. */
  lemma HandleLeakedException(api: Ec2Api, leak: string -> Option<string>, instance: InstanceInfo)
    requires leak(instance.instanceId).Some?
    ensures var id := instance.instanceId;
      && ProcessOne(api, leak, instance)
         == ShutdownResult(id, false, Some(ProcessingErrorMessage(id, leak(id).value)), instance.state)
      && Summarize([ProcessOne(api, leak, instance)]).errors
         == [InstanceError(id, Some(ProcessingErrorMessage(id, leak(id).value)))]
  {
    var r := ProcessOne(api, leak, instance);
    assert [r][..0] == [];
    assert TallyOf([r]) == Tally(0, 0, [Entry(r)]);
  }

  /** Isolation: an instance's result depends only on what EC2 and the
      handler do for that instance's id. */
  lemma ResultIsolated(api1: Ec2Api, leak1: string -> Option<string>,
                       api2: Ec2Api, leak2: string -> Option<string>,
                       instances: seq<InstanceInfo>, k: nat)
    requires k < |instances|
    requires var id := instances[k].instanceId;
      && leak1(id) == leak2(id)
      && (forall n :: api1.describe(id)(n) == api2.describe(id)(n))
      && (forall n :: api1.stop(id)(n) == api2.stop(id)(n))
    ensures Results(api1, leak1, instances)[k] == Results(api2, leak2, instances)[k]
  {
    var id := instances[k].instanceId;
    LinearRetry.RetrySameAttempts(api1.describe(id), api2.describe(id),
                                  LinearRetry.DefaultMaxRetries, LinearRetry.DefaultDelayMs);
    LinearRetry.RetrySameAttempts(api1.stop(id), api2.stop(id),
                                  LinearRetry.DefaultMaxRetries, LinearRetry.DefaultDelayMs);
  }

  /** A mixed batch: one stopped, one failed on permission, one failed on a
      transport error, one already stopped. */
  lemma MixedBatchSummary()
    ensures var results := [
        ShutdownResult("i-1", true, None, "running"),
        ShutdownResult("i-2", false, Some("AWS API error stopping instance i-2: UnauthorizedOperation - denied"), ""),
        ShutdownResult("i-3", false, Some("Unexpected error stopping instance i-3: timeout"), ""),
        ShutdownResult("i-4", true, None, "stopped")];
      var s := Summarize(results);
      && s == Summary(4, 1, 1, [InstanceError("i-2", results[1].error), InstanceError("i-3", results[2].error)])
      && StatusCode(s) == 207
  {
    var results := [
        ShutdownResult("i-1", true, None, "running"),
        ShutdownResult("i-2", false, Some("AWS API error stopping instance i-2: UnauthorizedOperation - denied"), ""),
        ShutdownResult("i-3", false, Some("Unexpected error stopping instance i-3: timeout"), ""),
        ShutdownResult("i-4", true, None, "stopped")];
    assert results[..1][..0] == [];
    assert TallyOf(results[..1]) == Tally(1, 0, []);
    assert results[..2][..1] == results[..1];
    assert TallyOf(results[..2]) == Tally(1, 0, [InstanceError("i-2", results[1].error)]);
    assert results[..3][..2] == results[..2];
    assert results[..4][..3] == results[..3];
    assert results[..4] == results;
  }
}
