/** `EC2Service.stop_instance`: re-read an instance's state, skip it when it
    is already stopped or stopping, otherwise ask EC2 to stop it; every
    failure becomes a failed `ShutdownResult`, nothing is raised. */
module Shutdown {
  import opened Outcomes
  import opened Text
  import opened Ec2Types
  import opened LinearRetry

  /** `ShutdownResult`. */
  datatype ShutdownResult = ShutdownResult(
    instanceId: string, success: bool, error: Option<string>, previousState: string)

  /** A result, and how many times `stop_instances` was called to get it. */
  datatype StopOutcome = StopOutcome(result: ShutdownResult, stopCalls: nat)

  /** `state in ['stopped', 'stopping']`. */
  predicate AlreadyStopping(state: string)
  {
    state == "stopped" || state == "stopping"
  }

  /** `str(e)` of the IndexError raised by `['Instances'][0]` on an empty list. */
  const IndexErrorMessage: string := "list index out of range"

  function NotFoundMessage(id: string): string
  {
    "Instance " + id + " not found"
  }

  function ApiErrorMessage(id: string, code: string, msg: string): string
  {
    "AWS API error stopping instance " + id + ": " + code + " - " + msg
  }

  function UnexpectedPrefix(id: string): string
  {
    "Unexpected error stopping instance " + id + ": "
  }

  /** The result of the `except ClientError` or `except Exception` handler. */
  function Failed<T>(id: string, e: Outcome<T>): ShutdownResult
    requires !e.Ok?
  {
    match e
    case Client(code, msg) => ShutdownResult(id, false, Some(ApiErrorMessage(id, code, msg)), "")
    case Network(msg) => ShutdownResult(id, false, Some(UnexpectedPrefix(id) + msg), "")
    case Other(msg) => ShutdownResult(id, false, Some(UnexpectedPrefix(id) + msg), "")
  }

  /** How the re-describe by id ends, with the default retry policy. */
  function DescribeOutcome(api: Ec2Api, id: string): Outcome<seq<Reservation>>
  {
    Retry(api.describe(id), DefaultMaxRetries, DefaultDelayMs).outcome
  }

  /** The state of the first instance of the first reservation the
      re-describe returns, when there is one. */
  function CurrentState(api: Ec2Api, id: string): Option<string>
  {
    match DescribeOutcome(api, id)
    case Ok(rs) => if rs != [] && rs[0] != [] then Some(rs[0][0].state) else None
    case _ => None
  }

  /** `stop_instance(instance_id)`. */
  function StopInstance(api: Ec2Api, id: string): (o: StopOutcome)
    ensures o.result.instanceId == id
    ensures o.result.success <==> o.result.error.None?
    ensures o.result.success ==> CurrentState(api, id) == Some(o.result.previousState)
    ensures !o.result.success ==> o.result.previousState == ""
  {
    match DescribeOutcome(api, id)
    case Ok(reservations) =>
      if reservations == [] then
        StopOutcome(ShutdownResult(id, false, Some(NotFoundMessage(id)), ""), 0)
      else if reservations[0] == [] then
        StopOutcome(Failed<()>(id, Other(IndexErrorMessage)), 0)
      else
        var state := reservations[0][0].state;
        if AlreadyStopping(state) then
          StopOutcome(ShutdownResult(id, true, None, state), 0)
        else
          var run := Retry(api.stop(id), DefaultMaxRetries, DefaultDelayMs);
          if run.outcome.Ok? then StopOutcome(ShutdownResult(id, true, None, state), run.calls)
          else StopOutcome(Failed(id, run.outcome), run.calls)
    case _ => StopOutcome(Failed(id, DescribeOutcome(api, id)), 0)
  }

  /** No reservations: the instance is reported not found, with no previous
      state, and no stop call is made. */
  lemma StopInstanceNotFound(api: Ec2Api, id: string)
    requires DescribeOutcome(api, id) == Ok([])
    ensures StopInstance(api, id) == StopOutcome(ShutdownResult(id, false, Some(NotFoundMessage(id)), ""), 0)
    ensures Contains(StopInstance(api, id).result.error.value, "not found")
  {
    ContainsMiddle("Instance " + id + " ", "not found", "");
    assert NotFoundMessage(id) == "Instance " + id + " " + "not found" + "";
  }

  /** Idempotence: an instance already stopped or stopping is reported as a
      success with its state, and no stop call is made. */
  lemma StopInstanceSkipsStopped(api: Ec2Api, id: string, state: string)
    requires CurrentState(api, id) == Some(state) && AlreadyStopping(state)
    ensures StopInstance(api, id) == StopOutcome(ShutdownResult(id, true, None, state), 0)
  {
  }

  /** `stop_instances` is called exactly when the instance is found and is
      neither stopped nor stopping. */
  lemma StopIssuedIff(api: Ec2Api, id: string)
    ensures StopInstance(api, id).stopCalls > 0 <==>
      CurrentState(api, id).Some? && !AlreadyStopping(CurrentState(api, id).value)
  {
  }

  /** When the stop call is made, the result follows its outcome: a
      success carries the described state; a ClientError gives a message
      holding its code; any other failure gives the "unexpected" message. */
  lemma StopInstanceAfterStopCall(api: Ec2Api, id: string, state: string)
    requires CurrentState(api, id) == Some(state) && !AlreadyStopping(state)
    ensures var run := Retry(api.stop(id), DefaultMaxRetries, DefaultDelayMs);
      var r := StopInstance(api, id).result;
      && StopInstance(api, id).stopCalls == run.calls
      && (run.outcome.Ok? ==> r == ShutdownResult(id, true, None, state))
      && (run.outcome.Client? ==>
            && r.error == Some(ApiErrorMessage(id, run.outcome.code, run.outcome.msg))
            && Contains(r.error.value, run.outcome.code)
            && r.previousState == "")
      && (run.outcome.Network? || run.outcome.Other? ==>
            r.error == Some(UnexpectedPrefix(id) + run.outcome.msg))
  {
    var run := Retry(api.stop(id), DefaultMaxRetries, DefaultDelayMs);
    if run.outcome.Client? {
      ApiErrorMessageShape(id, run.outcome.code, run.outcome.msg);
    }
  }

  /** A failure of the re-describe itself is classified the same way, and
      no stop call is made. */
  lemma StopInstanceDescribeFails(api: Ec2Api, id: string)
    requires !DescribeOutcome(api, id).Ok?
    ensures var e := DescribeOutcome(api, id);
      var r := StopInstance(api, id).result;
      && StopInstance(api, id).stopCalls == 0
      && !r.success && r.previousState == ""
      && (e.Client? ==> r.error == Some(ApiErrorMessage(id, e.code, e.msg)) && Contains(r.error.value, e.code))
      && (!e.Client? ==> r.error == Some(UnexpectedPrefix(id) + e.msg))
  {
    var e := DescribeOutcome(api, id);
    if e.Client? {
      ApiErrorMessageShape(id, e.code, e.msg);
    }
  }

  lemma ApiErrorMessageShape(id: string, code: string, msg: string)
    ensures StartsWith(ApiErrorMessage(id, code, msg), "AWS API error stopping instance " + id + ": ")
    ensures Contains(ApiErrorMessage(id, code, msg), code)
  {
    ContainsMiddle("AWS API error stopping instance " + id + ": ", code, " - " + msg);
    assert ApiErrorMessage(id, code, msg)
        == "AWS API error stopping instance " + id + ": " + code + (" - " + msg);
  }

  /** Every failure message is one of the three shapes the source writes. */
  lemma StopInstanceFailureMessages(api: Ec2Api, id: string)
    ensures var r := StopInstance(api, id).result;
      !r.success ==>
        || r.error == Some(NotFoundMessage(id))
        || StartsWith(r.error.value, "AWS API error stopping instance " + id + ": ")
        || StartsWith(r.error.value, UnexpectedPrefix(id))
  {
    match DescribeOutcome(api, id)
    case Ok(rs) =>
      if rs != [] && rs[0] != [] && !AlreadyStopping(rs[0][0].state) {
        match Retry(api.stop(id), DefaultMaxRetries, DefaultDelayMs).outcome
        case Ok(_) =>
        case Client(c, m) => ApiErrorMessageShape(id, c, m);
        case Network(m) => PrefixOf(UnexpectedPrefix(id), m);
        case Other(m) => PrefixOf(UnexpectedPrefix(id), m);
      } else if rs != [] && rs[0] == [] {
        PrefixOf(UnexpectedPrefix(id), IndexErrorMessage);
      }
    case Client(c, m) => ApiErrorMessageShape(id, c, m);
    case Network(m) => PrefixOf(UnexpectedPrefix(id), m);
    case Other(m) => PrefixOf(UnexpectedPrefix(id), m);
  }
}
