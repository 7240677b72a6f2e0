/**
 What the restart policy decides, in terms of the exits themselves: when the supervisor gives up, what
 becomes of the backend and the counters, and how long the waits are.
 */
module RestartLaws {
  import opened Prelude
  import opened RestartPolicy

  // ----- One decision -----

  /** A missing model, or a rate limit after more than three retries. */
  predicate CallsForFailover(c: Counters)
  {
    c.lastError.Some? &&
    (c.lastError.value.class_ == ModelNotFound || (c.lastError.value.class_ == RateLimited && c.rateRetryCount > 3))
  }

  /** It moves on to the next of the fallbacks, if there is one. */
  predicate FailsOver(c: Counters, fallbacks: nat) { CallsForFailover(c) && fallbacks > 0 && c.backendIdx < fallbacks }

  predicate IsClean(code: int, error: Option<AgentError>) { code == 0 && error == None }

  /** Authentication and billing are the errors that no restart can mend. */
  predicate IsFatal(error: Option<AgentError>)
  {
    error.Some? && (error.value.class_ == AuthFailure || error.value.class_ == BillingError)
  }

  predicate IsNoWork(error: Option<AgentError>) { error.Some? && error.value.class_ == NoWork }

  /** A rate limit, under a policy that does not count those, as the default does not. */
  predicate IsUncountedLimit(policy: Policy, error: Option<AgentError>)
  {
    error.Some? && error.value.class_ == RateLimited && policy.rateLimitNoCount != Some(false)
  }

  /** The exits that use up one of the retries. */
  predicate IsCounted(policy: Policy, code: int, error: Option<AgentError>)
  {
    !IsClean(code, error) && !IsNoWork(error) && !IsFatal(error) && !IsUncountedLimit(policy, error)
  }

  /** No fallback to go to, and a fatal error or a counted one after the last retry. */
  predicate GivesUp(policy: Policy, fallbacks: nat, c: Counters)
  {
    && !FailsOver(c, fallbacks)
    && (|| IsFatal(c.lastError)
        || (IsCounted(policy, c.lastExitCode, c.lastError) && c.restartCount >= policy.MaxRetries()))
  }

  function Exited(c: Counters, cycle: Cycle): Counters
    requires cycle.Exit?
  {
    c.(lastExitCode := cycle.code, lastError := cycle.error,
       restartCount := if cycle.epicSwitch then 0 else c.restartCount)
  }

  /** The supervisor ends after an exit if and only if it gives up, and after a failed start beyond the last retry. */
  lemma GoesOnIff(policy: Policy, fallbacks: nat, c: Counters, cycle: Cycle)
    ensures OneCycle(policy, fallbacks, c, cycle).1 <==>
            if cycle.SpawnError? then c.restartCount < policy.MaxRetries()
            else !GivesUp(policy, fallbacks, Exited(c, cycle))
  {
  }

  /** Each counter after an exit. */
  lemma CountersAfterExit(policy: Policy, fallbacks: nat, c: Counters, cycle: Cycle)
    requires cycle.Exit?
    ensures var (exited, c') := (Exited(c, cycle), OneCycle(policy, fallbacks, c, cycle).0);
            && (c'.lastExitCode, c'.lastError) == (cycle.code, cycle.error)
            && c'.backendIdx ==
               (if FailsOver(exited, fallbacks) then c.backendIdx + 1
                else if IsClean(cycle.code, cycle.error) && cycle.longRun then 0
                else c.backendIdx)
            && c'.restartCount ==
               (if FailsOver(exited, fallbacks) || IsClean(cycle.code, cycle.error) || IsNoWork(cycle.error) then 0
                else if IsCounted(policy, cycle.code, cycle.error) then exited.restartCount + 1
                else exited.restartCount)
            && c'.rateRetryCount ==
               (if FailsOver(exited, fallbacks) || IsClean(cycle.code, cycle.error) || IsNoWork(cycle.error)
                   || IsCounted(policy, cycle.code, cycle.error) then 0
                else if IsUncountedLimit(policy, cycle.error) then c.rateRetryCount + 1
                else c.rateRetryCount)
  {
  }

  /** A failed start counts one retry and changes nothing else. */
  lemma CountersAfterFailedStart(policy: Policy, fallbacks: nat, c: Counters)
    ensures OneCycle(policy, fallbacks, c, SpawnError).0 == c.(restartCount := c.restartCount + 1)
  {
  }

  // ----- Over whole runs -----

  /** A fatal error is the last thing a supervisor sees. */
  lemma {:induction false} FatalErrorIsLast(policy: Policy, fallbacks: nat, c: Counters, cycles: seq<Cycle>, k: nat)
    requires Survives(policy, fallbacks, c, cycles) && k < |cycles|
    ensures !(cycles[k].Exit? && IsFatal(cycles[k].error))
  {
    if k < |cycles| - 1 {
      FatalErrorIsLast(policy, fallbacks, c, cycles[..|cycles| - 1], k);
    } else {
      var before := AfterCycles(policy, fallbacks, c, cycles[..|cycles| - 1]);
      GoesOnIff(policy, fallbacks, before, cycles[k]);
    }
  }

  /** Clean exits, lack of work and uncounted rate limits. */
  predicate IsHarmless(policy: Policy, cycle: Cycle)
  {
    cycle.Exit? && !IsFatal(cycle.error) && !IsCounted(policy, cycle.code, cycle.error)
  }

  /** However many of them there are, they never stop a supervisor and never use up a retry. */
  lemma {:induction false} HarmlessCyclesSurvive(policy: Policy, fallbacks: nat, cycles: seq<Cycle>)
    requires forall k | 0 <= k < |cycles| :: IsHarmless(policy, cycles[k])
    ensures Survives(policy, fallbacks, INITIAL, cycles)
    ensures AfterCycles(policy, fallbacks, INITIAL, cycles).restartCount == 0
  {
    if cycles != [] {
      var init, last := cycles[..|cycles| - 1], cycles[|cycles| - 1];
      HarmlessCyclesSurvive(policy, fallbacks, init);
      GoesOnIff(policy, fallbacks, AfterCycles(policy, fallbacks, INITIAL, init), last);
      CountersAfterExit(policy, fallbacks, AfterCycles(policy, fallbacks, INITIAL, init), last);
    }
  }

  /** Without fallbacks each plain failure counts one more retry. */
  lemma {:induction false} FailuresAddUp(policy: Policy, cycles: seq<Cycle>, failures: seq<Cycle>)
    requires forall k | 0 <= k < |failures| :: IsPlainFailure(policy, failures[k])
    ensures AfterCycles(policy, 0, INITIAL, cycles + failures).restartCount ==
            AfterCycles(policy, 0, INITIAL, cycles).restartCount + |failures|
  {
    if failures == [] {
      assert cycles + failures == cycles;
    } else {
      var init, last := failures[..|failures| - 1], failures[|failures| - 1];
      assert (cycles + failures)[..|cycles + failures| - 1] == cycles + init;
      FailuresAddUp(policy, cycles, init);
      if last.Exit? {
        CountersAfterExit(policy, 0, AfterCycles(policy, 0, INITIAL, cycles + init), last);
      }
    }
  }

  /** Failed starts and counted exits that do not change the epic. */
  predicate IsPlainFailure(policy: Policy, cycle: Cycle)
  {
    cycle.Exit? ==> !cycle.epicSwitch && IsCounted(policy, cycle.code, cycle.error)
  }

  /** Without fallbacks, one failure after another: the supervisor goes on exactly as long as retries are left. */
  lemma {:induction false} RetriesAreSpentOneByOne(policy: Policy, failures: seq<Cycle>)
    requires forall k | 0 <= k < |failures| :: IsPlainFailure(policy, failures[k])
    ensures Survives(policy, 0, INITIAL, failures) <==> |failures| == 0 || |failures| <= policy.MaxRetries()
  {
    if failures != [] {
      var init, last := failures[..|failures| - 1], failures[|failures| - 1];
      RetriesAreSpentOneByOne(policy, init);
      FailuresAddUp(policy, [], init);
      assert [] + init == init;
      GoesOnIff(policy, 0, AfterCycles(policy, 0, INITIAL, init), last);
    }
  }

  // ----- Waits -----

  /** A lack of work waits its own fixed time, whatever the counters. */
  lemma NoWorkWaitIsFixed(policy: Policy, c: Counters)
    requires c.restartCount >= 0 && c.rateRetryCount >= 0 && IsNoWork(c.lastError)
    requires 0 <= policy.NoWorkBackoff() * SECOND < INT64_LIMIT
    ensures RestartPolicy.Backoff(policy, c) == policy.NoWorkBackoff() * SECOND
  {
    Wrap64Fits(policy.NoWorkBackoff() * SECOND);
  }

  const DEFAULTS := Policy(None, None, None, None, None, None, None, None)

  /** The seconds waited for first under the default policy. */
  function FirstWait(error: Option<AgentError>): int
  {
    match error
    case None => 2
    case Some(e) => if e.class_ == RateLimited then 30 else if e.class_ == ErrorClass.Timeout then 5 else 2
  }

  /**
   The default policy: three retries; rate limits uncounted; 30 seconds without work; and else 2, 5 or 30
   seconds, doubled each time up to 5 minutes, or what the server asked for if that is longer.
   */
  lemma DefaultWaits(c: Counters)
    requires c.restartCount >= 0 && c.rateRetryCount >= 0
    ensures DEFAULTS.MaxRetries() == 3 && DEFAULTS.RateLimitNoCount()
    ensures IsNoWork(c.lastError) ==> RestartPolicy.Backoff(DEFAULTS, c) == 30 * SECOND
    ensures !IsNoWork(c.lastError) ==>
              var limited := c.lastError.Some? && c.lastError.value.class_ == RateLimited;
              var n := if limited then c.rateRetryCount else c.restartCount;
              var doubled := Min(FirstWait(c.lastError) * Pow2(Min(n, 30)), 300) * SECOND;
              RestartPolicy.Backoff(DEFAULTS, c) ==
              if limited then Max(doubled, Min(c.lastError.value.retryAfter, 300 * SECOND)) else doubled
  {
    if IsNoWork(c.lastError) {
      NoWorkWaitIsFixed(DEFAULTS, c);
    } else {
      Pow2Of30();
      Pow2Grows(Min(Retries(c), 30), 30);
      BackoffClosedForm(DEFAULTS, c);
    }
  }
}
