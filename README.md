# EC2 auto-shutdown: a Dafny model

This project models the decision logic of an AWS Lambda function that finds the
EC2 instances carrying a configured tag and stops them. It covers four parts:

- **Linear-backoff retry** (`LinearRetry`, from `EC2Service._retry_with_linear_backoff`).
  Only transport failures are retried, with a constant delay.
- **Tag-filtered discovery** (`Discovery`, from `get_instances_with_tag` and its
  inner `_describe_instances_page`).
- **Per-instance stop decision** (`Shutdown`, from `stop_instance`). It returns
  not found, skip or stop, and turns every failure into a result.
- **Handler** (`Handler`, from `lambda_handler`, `_generate_summary` and the
  response helpers). It runs one `stop_instance` per discovered instance, folds the
  results into counts and an error list, and picks status 200, 207 or 500. It also
  handles the early returns.
- **Configuration** (`Configuration`, from `Config`). The tag key, tag value and
  region come from the environment, with defaults, stripped of whitespace, then
  validated.

Supporting modules:

- `Outcomes` holds `Option`, `Result` and `Outcome`. `Outcome` is the closed set of
  ways an EC2 call can end: `Ok`, `Network` (BotoCoreError or ConnectionError),
  `Client` (ClientError, with its code) and `Other`.
- `Text` holds Python's `str.strip()` (with the full `str.isspace()` character set)
  and decimal formatting of counts.
- `Ec2Types` holds the records and the EC2 oracle.

EC2 is an oracle, `Ec2Api`. For each request it gives the outcome of the n-th call
made for that request within one operation (one retried listing, one
`stop_instance`):

- the listing walk, keyed by its filters;
- `describe_instances` by id;
- `stop_instances` by id.

Other inputs the source gets from outside are parameters:

- whether constructing the service raises (`initError`);
- whether a `stop_instance` call raises (`leak`);
- the environment, as a `map<string, string>`.

Sleeps are returned as a trace of delays in integer milliseconds (default 2000).

Behaviours of the code a reader might not expect:

- Every failed result that `stop_instance` returns has `previous_state == ""`.
  The handler's substitute result for a raising call keeps the discovered state.
- Authorization errors get the same message as other API errors. Only the log level
  differs.
- The 500 response's recap is `"Lambda function failed with unexpected error"`.
- A present-but-empty variable is not replaced by its default. The code and the
  assertions of `tests/test_config.py:71-81` agree on this; only that test's name
  says otherwise.

## Model

| member | source | states |
|---|---|---|
| `LinearRetry.RetryWithLinearBackoff` | src/ec2_service.py:64-97 | The loop's outcome, its number of calls and its sleeps are exactly the run `Retry` describes. |
| `LinearRetry.Retry` | src/ec2_service.py:82-97 | With `max_retries >= 0`: between 1 and `max_retries + 1` calls, and the outcome is the last call's. There are `calls - 1` sleeps, each equal to `delay`. With a negative `max_retries`: no call, and the TypeError of `raise None`. |
| `LinearRetry.StopIndex` | src/ec2_service.py:82-92 | The attempt the wrapper stops at lies within the allowed attempts. |
| `LinearRetry.StopIndexCharacterized` | src/ec2_service.py:84-92 | Every attempt before the stopping one was a transport failure. An early stop happens only at a non-transport outcome. |
| `LinearRetry.StopIndexAt` | src/ec2_service.py:84-92 | Those conditions fix the stopping attempt uniquely. |
| `LinearRetry.RetryCharacterized` | src/ec2_service.py:82-92 | All calls but the last failed with transport errors. A run that ends before the last allowed attempt does not end on a transport error. |
| `LinearRetry.RetryStopsAtFirstNonNetwork` | src/ec2_service.py:84-95 | After k transport failures, a non-transport outcome at attempt k is returned or raised. This takes k + 1 calls and k sleeps of `delay`. |
| `LinearRetry.RetrySucceedsAfterFailures` | src/ec2_service.py:84-89 | k failures then a success (k at most `max_retries`) return that value after exactly k sleeps of `delay`. |
| `LinearRetry.RetryNeverRetriesClientError` | src/ec2_service.py:93-95 | A ClientError is raised on the attempt it occurs on. No further call and no further sleep follow. |
| `LinearRetry.RetryExhausted` | src/ec2_service.py:90-92 | If all `max_retries + 1` attempts fail with transport errors, the last one is raised, after `max_retries` sleeps. |
| `LinearRetry.RetryNetworkOnlyWhenExhausted` | src/ec2_service.py:85-92 | A transport error is raised only after every allowed attempt failed with one. |
| `LinearRetry.RetrySameAttempts` | src/ec2_service.py:82-84 | Two operations that end alike on every call give the same run. |
| `Text.SkipSpace` | src/config.py:42 | Strip's start index is the first character from the given position on that is not whitespace, or the end. Everything skipped is whitespace. |
| `Text.SkipSpaceBack` | src/config.py:42 | Strip's end index is just past the last character before the end that is not whitespace, and never before the start. Everything skipped is whitespace. |
| `Text.Strip` | src/config.py:42 | `str.strip()`: the result is no longer than the input and has no whitespace at either end. `StripIsTrimmedSlice`, `StripEmptyIffAllSpace`, `StripKeepsTrimmed` and `StripIdempotent` pin down which slice it is. |
| `Text.StripIsTrimmedSlice` | src/config.py:42 | `strip()` returns one slice of the input. Only whitespace lies around the slice, and the slice has no whitespace at either end. |
| `Text.StripEmptyIffAllSpace` | src/config.py:42 | The stripped value is empty exactly when the input is all whitespace. |
| `Text.StripKeepsTrimmed` | src/config.py:42 | A value without surrounding whitespace is unchanged. |
| `Text.StripIdempotent` | src/config.py:42 | Stripping twice equals stripping once. |
| `Text.NatToString` | src/lambda_function.py:129-132 | A count's text is non-empty decimal digits with no leading zero. |
| `Text.ParseNatToString` | src/lambda_function.py:129-132 | Reading the decimal text back gives the count. |
| `Discovery.TagFilterInjective` | src/ec2_service.py:120-125 | The filter `[{Name: "tag:"+key, Values: [value]}]` determines key and value. |
| `Discovery.TagMap` | src/ec2_service.py:135 | The tag map's keys are exactly the keys of the tag list. |
| `Discovery.TagMapLastWins` | src/ec2_service.py:135 | Each key maps to the value of the last tag with that key. |
| `Discovery.ListedAppend` | src/ec2_service.py:131-133 | Page order is kept: the instances of a split walk are those of the first part followed by those of the second. |
| `Discovery.ListedMembership` | src/ec2_service.py:131-133 | A descriptor is listed exactly when it is in some reservation of some page. |
| `Discovery.DescribeInstancesPage` | src/ec2_service.py:129-145 | The triple loop gives one record per listed instance. Records follow page, reservation and instance order. Each copies the id and state and carries the tag map. |
| `Discovery.GetInstancesWithTag` | src/ec2_service.py:99-159 | The method returns or raises what `Discover` says: the retried listing walk made into records. |
| `Discovery.DiscoverResult` | src/ec2_service.py:147-159 | A successful walk gives one record per listed instance, in order, with id and state. Any failure is raised unchanged. |
| `Shutdown.StopInstance` | src/ec2_service.py:161-237 | The result's id is the input id, and an error is present exactly on failure. A success carries the re-described state. Every failure has previous state `""`. |
| `Shutdown.StopInstanceNotFound` | src/ec2_service.py:180-187 | With no reservations, the result is failure, `"Instance <id> not found"` and `""`, with no stop call. |
| `Shutdown.StopInstanceSkipsStopped` | src/ec2_service.py:192-199 | A stopped or stopping instance gives success with that state and no stop call. |
| `Shutdown.StopIssuedIff` | src/ec2_service.py:189-205 | A stop call is made exactly when the instance is found and is neither stopped nor stopping. |
| `Shutdown.StopInstanceAfterStopCall` | src/ec2_service.py:201-237 | After the stop call, a success carries the described state. A ClientError gives the API-error message, which contains the code, and `""`. Any other failure gives the "Unexpected error stopping instance" message. |
| `Shutdown.StopInstanceDescribeFails` | src/ec2_service.py:214-237 | A failed re-describe gives no stop call and a failed result. The message contains the code for a ClientError and is the "Unexpected error" message otherwise. |
| `Shutdown.ApiErrorMessageShape` | src/ec2_service.py:214-216 | The API-error message starts with the instance prefix and contains the error code. |
| `Shutdown.StopInstanceFailureMessages` | src/ec2_service.py:180-237 | Every failure message is not found, an API error for the instance, or an unexpected error for the instance. |
| `Handler.GenerateSummary` | src/lambda_function.py:147-179 | The loop's counters and error list are exactly `Summarize` of the results. |
| `Handler.SummaryConservation` | src/lambda_function.py:157-172 | processed = number of results = stopped + skipped + number of errors. |
| `Handler.SummaryCountsClasses` | src/lambda_function.py:162-172 | stopped counts the successes not already stopped or stopping, `""` included. skipped counts the successes that were. The errors count the failures. |
| `Handler.SummaryErrorsAreFailures` | src/lambda_function.py:168-172 | The errors are exactly the failed results as `{instance_id, error}`, in input order. |
| `Handler.StatusCode` | src/lambda_function.py:118-125 | The status is 200 exactly when there are no errors, and 207 exactly when there are some, even if every instance failed. |
| `Handler.SummaryLine` | src/lambda_function.py:129-132 | The recap `"Processed N instances, stopped N, skipped N, errors: N"` of a non-empty run. `HandleBatch` ties it to the run's counts, and `NatToString` and `ParseNatToString` show each number is the count's decimal text. |
| `Handler.CreateResponse` | src/lambda_function.py:182-196 | `_create_response`: the `{statusCode, body}` envelope, with the body kept as a record. `ErrorResponse`, `HandleNoInstances` and `HandleBatch` state the status and body of each response built with it. |
| `Handler.ErrorResponse` | src/lambda_function.py:275-291 | The error response has status 500, all counts 0, and the message as the only error. |
| `Handler.ProcessOne` | src/lambda_function.py:77-107 | Each iteration's result carries the instance's id, and has an error exactly when it failed. |
| `Handler.ProcessInstances` | src/lambda_function.py:76-107 | There is one `stop_instance` call and one result per instance, in discovery order. |
| `Handler.LambdaHandler` | src/lambda_function.py:23-133 | The handler's response and its `stop_instance` calls are exactly those of `Handle`. |
| `Handler.HandleInitFailure` | src/lambda_function.py:47-53 | A failed service construction gives 500, zero counts, the "Failed to initialize EC2 service: " message, and no instance touched. |
| `Handler.HandleDiscoveryFailure` | src/lambda_function.py:55-64 | A failed discovery gives 500, zero counts, the "Failed to discover instances: " message, and no instance touched. |
| `Handler.HandleNoInstances` | src/lambda_function.py:66-74 | An empty discovery gives 200, zero counts, no errors, the "No instances found with shutdown tag" recap, and no `stop_instance` call. |
| `Handler.HandleBatch` | src/lambda_function.py:76-133 | In a non-empty run, every instance is attempted in order and yields one result with its id. The counts are conserved, the status is 200 iff there are no errors and 207 iff there are some, and the recap is the "Processed N instances" line. |
| `Handler.HandleLeakedException` | src/lambda_function.py:94-107 | A raising `stop_instance` call gives a failed result. It has the "Unexpected error processing instance" message and the discovered state, and it appears in the errors. |
| `Handler.ResultIsolated` | src/lambda_function.py:76-107 | An instance's result depends only on what EC2 and the call do for that instance's id. |
| `Handler.MixedBatchSummary` | src/lambda_function.py:147-179 | A batch of one stopped, two failed and one already stopped gives 4, 1, 1, the two errors in order, and status 207. |
| `Configuration.GetEnvVar` | src/config.py:39-42 | A present variable gives its value stripped, even when that value is empty. An absent one gives the default, stripped, or None. |
| `Configuration.ValidateConfig` | src/config.py:44-58 | There is no error exactly when 1 ≤ len(key) ≤ 128 and 1 ≤ len(value) ≤ 256. |
| `Configuration.ValidateReportsFirstFailure` | src/config.py:44-58 | The message reported is the first failing check, in the order: empty key, empty value, key length, value length. |
| `Configuration.Config.constructor` | src/config.py:15-19 | The fields hold the key, value and region read from the environment. |
| `Configuration.LoadConfig` | src/config.py:15-22 | Construction fails with the validation message, or succeeds with the read values. On success 1 ≤ len(key) ≤ 128 and 1 ≤ len(value) ≤ 256. |
| `Configuration.DefaultsWhenAbsent` | src/config.py:17-19 | Absent variables give "AutoShutdown", "yes" and no region. |
| `Configuration.PresentVariableStripped` | src/config.py:39-42 | Present variables give their stripped values, the region included. |
| `Configuration.BlankKeyRejected` | src/config.py:41-47 | An empty or whitespace-only key is kept as `""`, not replaced by the default, and rejected with "SHUTDOWN_TAG_KEY cannot be empty". |
| `Configuration.BlankValueRejected` | src/config.py:41-50 | With a usable key, an empty or whitespace-only value is rejected with "SHUTDOWN_TAG_VALUE cannot be empty". |
| `Configuration.LengthLimits` | src/config.py:52-58 | Exactly 128 and 256 characters pass. Longer values are rejected with the matching "cannot exceed" message. |
| `Configuration.ConfiguredValuesTrimmed` | src/config.py:39-42 | The configured key and value have no surrounding whitespace. |

## Left out

- `_send_custom_metrics` (src/lambda_function.py:199-272): a CloudWatch call whose failures are swallowed. It does not change the response.
- `EC2Service.__init__`: building the boto3 client and its adaptive throttling retries is library behaviour. Whether construction raises is the `initError` parameter.
- Logging: `src/logger.py`, every log line, the warn-versus-error choice for permission errors, and the correlation id from `uuid4` are output or randomness only.
- Real time and the float `delay`: sleeps are a trace of integer milliseconds.
- `json.dumps` in `_create_response`: the body is a record, not JSON text.
- The lazy paginator: when discovery is retried, the source re-iterates a partly consumed page iterator. The model gives each listing attempt its own fixed pages or its own failure.
- The catch-all handler (src/lambda_function.py:135-144): it only guards against exceptions from logging and plumbing.
- Results from a logging exception: if a log call after `results.append` in the loop raised, the source would append a second result for the same instance. Logging is out of the model, so `leak` stands only for the `stop_instance` call itself raising.
- Malformed responses: a missing `InstanceId`, `State` or `Name` key would raise KeyError. Descriptors always carry these fields. The missing-instance IndexError (`Reservations[0]['Instances']` empty) is modelled.
- Exception texts: `str(e)` of a botocore error is an opaque message from the oracle.
- The module-level `config = Config()` singleton: the handler takes the tag key and value as parameters. `LoadConfig` models constructing `Config`.
- Repeated ids: each `stop_instance` call asks the oracle from its first call again. So an id that discovery listed twice gets the same outcomes both times, not the next EC2 calls. Discovered ids are in effect assumed unique.
- `tests/integration/*`: these need real AWS credentials and interactive input.
