/** `EC2Service._retry_with_linear_backoff`: call an operation until it does
    not fail with a transport error, at most `max_retries` extra times,
    sleeping a constant delay before each retry. The operation is an oracle:
    `attempts(n)` is how its n-th call (from 0) ends. Sleeps are recorded as
    a trace of delays in milliseconds instead of being slept. */
module LinearRetry {
  import opened Outcomes

  /** The policy every caller in the service uses: `max_retries=3, delay=2.0`. */
  const DefaultMaxRetries: int := 3
  const DefaultDelayMs: nat := 2000

  /** `str(e)` of the TypeError Python raises for `raise None`, which is what
      the wrapper's final `raise last_exception` does when the loop never ran. */
  const RaiseNoneMessage: string := "exceptions must derive from BaseException"

  /** What one run of the wrapper does: its outcome, how many times it called
      the operation, and the delays it slept, in order. */
  datatype RetryRun<+T> = RetryRun(outcome: Outcome<T>, calls: nat, sleeps: seq<nat>)

  /** `k` sleeps of `delay` each. */
  function Sleeps(delay: nat, k: nat): (s: seq<nat>)
  {
    seq(k, _ => delay)
  }

  /** The attempt, from attempt `i` on, at which the wrapper stops calling:
      the first one that is not a transport failure, or the last allowed one. */
  function StopIndex<T>(attempts: nat -> Outcome<T>, maxRetries: nat, i: nat): (k: nat)
    requires i <= maxRetries
    ensures i <= k <= maxRetries
    decreases maxRetries - i
  {
    if i == maxRetries || !attempts(i).Network? then i else StopIndex(attempts, maxRetries, i + 1)
  }

  /** The run of the wrapper on the given attempts. */
  function Retry<T>(attempts: nat -> Outcome<T>, maxRetries: int, delay: nat): (run: RetryRun<T>)
    ensures maxRetries < 0 ==> run == RetryRun(Other(RaiseNoneMessage), 0, [])
    ensures maxRetries >= 0 ==>
      && 1 <= run.calls <= maxRetries + 1
      && run.outcome == attempts(run.calls - 1)
      && |run.sleeps| == run.calls - 1
      && (forall j :: 0 <= j < |run.sleeps| ==> run.sleeps[j] == delay)
  {
    if maxRetries < 0 then RetryRun(Other(RaiseNoneMessage), 0, [])
    else
      var k := StopIndex(attempts, maxRetries, 0);
      RetryRun(attempts(k), k + 1, Sleeps(delay, k))
  }

  /** The loop of `_retry_with_linear_backoff`. */
  method RetryWithLinearBackoff<T>(attempts: nat -> Outcome<T>, maxRetries: int, delay: nat)
    returns (r: Outcome<T>, calls: nat, sleeps: seq<nat>)
    ensures RetryRun(r, calls, sleeps) == Retry(attempts, maxRetries, delay)
  {
    calls, sleeps := 0, [];
    var attempt: nat := 0;
    while attempt < maxRetries + 1
      invariant maxRetries >= 0 ==> attempt <= maxRetries
      invariant maxRetries < 0 ==> attempt == 0
      invariant calls == attempt && sleeps == Sleeps(delay, attempt)
      invariant maxRetries >= 0 ==>
        StopIndex(attempts, maxRetries, 0) == StopIndex(attempts, maxRetries, attempt)
      decreases maxRetries + 1 - attempt
    {
      var o := attempts(attempt);
      calls := calls + 1;
      match o {
        case Network(_) =>
          if attempt < maxRetries {
            sleeps := sleeps + [delay];
          } else {
            // all retry attempts failed: re-raise the last transport error
            r := o;
            return;
          }
        case _ =>
          // a value is returned; a ClientError is re-raised at once; any
          // other exception is not caught and propagates at once
          r := o;
          return;
      }
      attempt := attempt + 1;
    }
    // only reached when `range(max_retries + 1)` is empty: `last_exception` is still None
    r := Other(RaiseNoneMessage);
  }

  /** Every attempt before the one the wrapper stops at was a transport
      failure, and it stops early only at one that is not. */
  lemma {:induction false} StopIndexCharacterized<T>(attempts: nat -> Outcome<T>, maxRetries: nat, i: nat)
    requires i <= maxRetries
    ensures forall j :: i <= j < StopIndex(attempts, maxRetries, i) ==> attempts(j).Network?
    ensures StopIndex(attempts, maxRetries, i) < maxRetries ==>
      !attempts(StopIndex(attempts, maxRetries, i)).Network?
    decreases maxRetries - i
  {
    if i < maxRetries && attempts(i).Network? {
      StopIndexCharacterized(attempts, maxRetries, i + 1);
    }
  }

  /** The characterization determines the stopping attempt. */
  lemma {:induction false} StopIndexAt<T>(attempts: nat -> Outcome<T>, maxRetries: nat, i: nat, k: nat)
    requires i <= k <= maxRetries
    requires forall j :: i <= j < k ==> attempts(j).Network?
    requires k == maxRetries || !attempts(k).Network?
    ensures StopIndex(attempts, maxRetries, i) == k
    decreases k - i
  {
    if i < k {
      StopIndexAt(attempts, maxRetries, i + 1, k);
    }
  }

  /** The run's calls, in full: every call but the last failed with a
      transport error, and the last is either not a transport failure or the
      final allowed attempt. */
  lemma RetryCharacterized<T>(attempts: nat -> Outcome<T>, maxRetries: int, delay: nat)
    requires maxRetries >= 0
    ensures var run := Retry(attempts, maxRetries, delay);
      && (forall j :: 0 <= j < run.calls - 1 ==> attempts(j).Network?)
      && (run.calls <= maxRetries ==> !run.outcome.Network?)
  {
    StopIndexCharacterized(attempts, maxRetries, 0);
  }

  /** A run stops at the first attempt that is not a transport failure, after
      one sleep of `delay` per earlier failure. */
  lemma RetryStopsAtFirstNonNetwork<T>(attempts: nat -> Outcome<T>, maxRetries: int, delay: nat, k: nat)
    requires k <= maxRetries
    requires forall j :: 0 <= j < k ==> attempts(j).Network?
    requires !attempts(k).Network?
    ensures Retry(attempts, maxRetries, delay) == RetryRun(attempts(k), k + 1, Sleeps(delay, k))
  {
    StopIndexAt(attempts, maxRetries, 0, k);
  }

  /** k transport failures followed by a success: the value is returned after
      exactly k sleeps, each of `delay`. */
  lemma RetrySucceedsAfterFailures<T>(attempts: nat -> Outcome<T>, maxRetries: int, delay: nat, k: nat)
    requires k <= maxRetries
    requires forall j :: 0 <= j < k ==> attempts(j).Network?
    requires attempts(k).Ok?
    ensures var run := Retry(attempts, maxRetries, delay);
      run.outcome == attempts(k) && run.calls == k + 1 && run.sleeps == Sleeps(delay, k)
  {
    RetryStopsAtFirstNonNetwork(attempts, maxRetries, delay, k);
  }

  /** A ClientError is raised on the attempt it occurs on: no later attempt
      and no sleep after it. */
  lemma RetryNeverRetriesClientError<T>(attempts: nat -> Outcome<T>, maxRetries: int, delay: nat, k: nat)
    requires k <= maxRetries
    requires forall j :: 0 <= j < k ==> attempts(j).Network?
    requires attempts(k).Client?
    ensures var run := Retry(attempts, maxRetries, delay);
      run.outcome == attempts(k) && run.calls == k + 1 && |run.sleeps| == k
  {
    RetryStopsAtFirstNonNetwork(attempts, maxRetries, delay, k);
  }

  /** When every allowed attempt fails with a transport error, the last one
      is raised after `max_retries + 1` calls and `max_retries` sleeps. */
  lemma RetryExhausted<T>(attempts: nat -> Outcome<T>, maxRetries: int, delay: nat)
    requires maxRetries >= 0
    requires forall j :: 0 <= j <= maxRetries ==> attempts(j).Network?
    ensures Retry(attempts, maxRetries, delay)
         == RetryRun(attempts(maxRetries), maxRetries + 1, Sleeps(delay, maxRetries))
  {
    StopIndexAt(attempts, maxRetries, 0, maxRetries);
  }

  /** Conversely, a transport error comes out of the wrapper only after every
      allowed attempt failed with one. */
  lemma RetryNetworkOnlyWhenExhausted<T>(attempts: nat -> Outcome<T>, maxRetries: int, delay: nat)
    requires maxRetries >= 0
    requires Retry(attempts, maxRetries, delay).outcome.Network?
    ensures Retry(attempts, maxRetries, delay).calls == maxRetries + 1
    ensures forall j :: 0 <= j <= maxRetries ==> attempts(j).Network?
  {
    RetryCharacterized(attempts, maxRetries, delay);
  }

  /** The wrapper only sees how each call ends: two operations that end
      alike on every call give the same run. */
  lemma {:induction false} StopIndexSameAttempts<T>(a1: nat -> Outcome<T>, a2: nat -> Outcome<T>, maxRetries: nat, i: nat)
    requires i <= maxRetries
    requires forall n :: a1(n) == a2(n)
    ensures StopIndex(a1, maxRetries, i) == StopIndex(a2, maxRetries, i)
    decreases maxRetries - i
  {
    if i < maxRetries && a1(i).Network? {
      StopIndexSameAttempts(a1, a2, maxRetries, i + 1);
    }
  }

  lemma RetrySameAttempts<T>(a1: nat -> Outcome<T>, a2: nat -> Outcome<T>, maxRetries: int, delay: nat)
    requires forall n :: a1(n) == a2(n)
    ensures Retry(a1, maxRetries, delay) == Retry(a2, maxRetries, delay)
  {
    if maxRetries >= 0 {
      StopIndexSameAttempts(a1, a2, maxRetries, 0);
    }
  }
}
