/** Running a block with retries (io/github/andresviedma/poket/utils/retry/RetryHandler.kt). */
module RetryHandling {
  import opened Base
  import opened RetryProfileConfiguration

  /** The step of the first attempt the handler accepts, starting the search at `step`: the
      first attempt that the error detection does not flag, or the last allowed attempt. */
  function AcceptedStep<T>(config: RetryPolicyConfig, attempt: (nat, bool) -> Outcome<T>,
                           errorDetection: Outcome<T> -> bool, step: nat): (n: nat)
    requires step <= config.MaxRetries()
    ensures step <= n <= config.MaxRetries()
    ensures n < config.MaxRetries() ==> !errorDetection(attempt(n, false))
    ensures forall k :: step <= k < n ==> errorDetection(attempt(k, false))
    decreases config.MaxRetries() - step
  {
    if step < config.MaxRetries() && errorDetection(attempt(step, false)) then
      AcceptedStep(config, attempt, errorDetection, step + 1)
    else step
  }

  /** `CustomRetryHandler.run(block)`. The block is given the step number and whether it is
      the last allowed attempt; an attempt flagged as an error is retried after the
      configured delay while retries remain, otherwise its outcome (value or exception) is
      the result. Returns the result, the delays waited and the number of attempts made. */
  method Run<T>(config: RetryPolicyConfig, attempt: (nat, bool) -> Outcome<T>, errorDetection: Outcome<T> -> bool)
    returns (result: Outcome<T>, delays: seq<int>, attempts: nat)
    ensures var n := AcceptedStep(config, attempt, errorDetection, 0);
            attempts == n + 1 && result == attempt(n, n >= config.MaxRetries())
    ensures attempts <= config.MaxRetries() + 1
    ensures delays == config.retries[..attempts - 1]
  {
    var maxRetries := config.MaxRetries();
    var step: nat := 0;
    delays := [];
    var outcome := attempt(step, step >= maxRetries);
    while step < maxRetries && errorDetection(outcome)
      invariant step <= maxRetries
      invariant outcome == attempt(step, step >= maxRetries)
      invariant AcceptedStep(config, attempt, errorDetection, step) == AcceptedStep(config, attempt, errorDetection, 0)
      invariant delays == config.retries[..step]
      decreases maxRetries - step
    {
      delays := delays + [config.retries[step]];
      step := step + 1;
      outcome := attempt(step, step >= maxRetries);
    }
    result := outcome;
    attempts := step + 1;
  }

  /** `RetryHandler.runIndexed(profile, errorDetection, block)`: runs with the policy of
      the profile. */
  method RunIndexed<T>(profiles: RetryProfileConfig, profile: Option<string>,
                       attempt: (nat, bool) -> Outcome<T>, errorDetection: Outcome<T> -> bool)
    returns (result: Outcome<T>, delays: seq<int>, attempts: nat)
    ensures attempts <= profiles.GetProfileConfig(profile).MaxRetries() + 1
    ensures var n := AcceptedStep(profiles.GetProfileConfig(profile), attempt, errorDetection, 0);
            attempts == n + 1 && result == attempt(n, n >= profiles.GetProfileConfig(profile).MaxRetries())
  {
    result, delays, attempts := Run(profiles.GetProfileConfig(profile), attempt, errorDetection);
  }

  /** The default error detection: an attempt is an error when it threw. */
  predicate IsFailure<T>(r: Outcome<T>) { r.Thrown? }

  /** With the default error detection, a call that succeeds at some attempt within the
      allowed retries returns that success, and the first success is the one returned. */
  lemma FirstSuccessIsReturned<T>(config: RetryPolicyConfig, attempt: (nat, bool) -> Outcome<T>, k: nat)
    requires k <= config.MaxRetries()
    requires attempt(k, k >= config.MaxRetries()).Ok?
    requires forall j :: 0 <= j < k ==> attempt(j, false).Thrown?
    ensures AcceptedStep(config, attempt, IsFailure, 0) == k
  {
    var n := AcceptedStep(config, attempt, IsFailure, 0);
    assert n > k ==> IsFailure(attempt(k, false));
  }

  /** A disabled policy runs the block exactly once, flagged as the last attempt. */
  lemma DisabledRunsOnce<T>(retries: seq<int>, attempt: (nat, bool) -> Outcome<T>, errorDetection: Outcome<T> -> bool)
    ensures AcceptedStep(RetryPolicyConfig(retries, false), attempt, errorDetection, 0) == 0
    ensures RetryPolicyConfig(retries, false).MaxRetries() == 0
  {
  }

  /** When every attempt fails, the block runs `maxRetries + 1` times and the last failure
      is the result. */
  lemma AllFailing<T>(config: RetryPolicyConfig, attempt: (nat, bool) -> Outcome<T>)
    requires forall j :: 0 <= j < config.MaxRetries() ==> attempt(j, false).Thrown?
    ensures AcceptedStep(config, attempt, IsFailure, 0) == config.MaxRetries()
  {
  }
}
