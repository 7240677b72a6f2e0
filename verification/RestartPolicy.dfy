/** Restart counting, backend failover and backoff of one supervised agent. */
module RestartPolicy {
  import opened Prelude

  datatype ErrorClass =
    | RateLimited | AuthFailure | BillingError | ModelNotFound | ContextOverflow
    | Timeout | Transient | NoWork | Unknown
  {
    predicate IsFatal() { this in {AuthFailure, BillingError} }
  }

  /** A classified failure; the Retry-After hint is in nanoseconds, zero when absent. */
  datatype AgentError = AgentError(class_: ErrorClass, retryAfter: int)

  /** The restart policy section of the configuration, None where a setting is left out. */
  datatype Policy = Policy(
    maxRetries: Option<int>, backoffInitial: Option<int>, backoffMax: Option<int>,
    rateLimitBackoff: Option<int>, rateLimitMaxWait: Option<int>, rateLimitNoCount: Option<bool>,
    timeoutBackoff: Option<int>, noWorkBackoff: Option<int>)
  {
    function MaxRetries(): int { if maxRetries.Some? then maxRetries.value else 3 }
    function BackoffInitial(): int { if backoffInitial.Some? then backoffInitial.value else 2 }
    function BackoffMax(): int { if backoffMax.Some? then backoffMax.value else 300 }
    function RateLimitBackoff(): int { if rateLimitBackoff.Some? then rateLimitBackoff.value else 30 }
    function RateLimitMaxWait(): int { if rateLimitMaxWait.Some? then rateLimitMaxWait.value else 300 }
    predicate RateLimitNoCount() { rateLimitNoCount.Some? ==> rateLimitNoCount.value }
    function TimeoutBackoff(): int { if timeoutBackoff.Some? then timeoutBackoff.value else 5 }
    function NoWorkBackoff(): int { if noWorkBackoff.Some? then noWorkBackoff.value else 30 }
  }

  /** The fields that decide what happens after an exit. */
  datatype Counters = Counters(
    restartCount: int, rateRetryCount: int, backendIdx: int, lastExitCode: int, lastError: Option<AgentError>)

  const INITIAL := Counters(0, 0, 0, 0, None)

  predicate LastErrorIs(c: Counters, class_: ErrorClass)
  {
    c.lastError.Some? && c.lastError.value.class_ == class_
  }

  // ----- Decisions -----

  /** tryFallbackBackend: the new counters, and whether failover was triggered. */
  function Failover(c: Counters, fallbacks: nat): (Counters, bool)
  {
    if c.lastError == None || fallbacks == 0 then (c, false)
    else if !(LastErrorIs(c, ModelNotFound) || (LastErrorIs(c, RateLimited) && c.rateRetryCount > 3)) then (c, false)
    else if c.backendIdx + 1 >= 1 + fallbacks then (c, false)
    else (c.(backendIdx := c.backendIdx + 1, restartCount := 0, rateRetryCount := 0), true)
  }

  /** shouldRestart; `longRun` is whether the run lasted more than a minute. */
  function Restart(policy: Policy, c: Counters, longRun: bool): (Counters, bool)
  {
    if c.lastExitCode == 0 && c.lastError == None then
      (c.(restartCount := 0, rateRetryCount := 0, backendIdx := if longRun then 0 else c.backendIdx), true)
    else if LastErrorIs(c, NoWork) then
      (c.(restartCount := 0, rateRetryCount := 0), true)
    else if c.lastError.Some? && c.lastError.value.class_.IsFatal() then
      (c, false)
    else if LastErrorIs(c, RateLimited) && policy.RateLimitNoCount() then
      (c.(rateRetryCount := c.rateRetryCount + 1), true)
    else
      (c.(restartCount := c.restartCount + 1, rateRetryCount := 0), c.restartCount + 1 <= policy.MaxRetries())
  }

  /** handleRestartAfterError, when no shutdown interrupts the wait. */
  function RestartAfterError(policy: Policy, c: Counters): (Counters, bool)
  {
    (c.(restartCount := c.restartCount + 1), c.restartCount + 1 <= policy.MaxRetries())
  }

  // ----- Backoff -----

  const SECOND: int := 1_000_000_000

  function Pow2(n: nat): int { if n == 0 then 1 else 2 * Pow2(n - 1) }

  function BackoffSeconds(initial: int, n: nat, cap: int): int
  {
    var product := Wrap64(initial * Pow2(Min(n, 30)));
    if product > cap || product < 0 then cap else product
  }

  /** The sleep before the next restart, in nanoseconds. */
  function Backoff(policy: Policy, c: Counters): int
    requires c.restartCount >= 0 && c.rateRetryCount >= 0
  {
    if LastErrorIs(c, NoWork) then Wrap64(policy.NoWorkBackoff() * SECOND)
    else if LastErrorIs(c, RateLimited) then
      var cap := policy.RateLimitMaxWait();
      var backoff := Wrap64(BackoffSeconds(policy.RateLimitBackoff(), c.rateRetryCount, cap) * SECOND);
      var hint := c.lastError.value.retryAfter;
      if hint > backoff then (if hint > Wrap64(cap * SECOND) then Wrap64(cap * SECOND) else hint) else backoff
    else
      var initial := if LastErrorIs(c, Timeout) then policy.TimeoutBackoff() else policy.BackoffInitial();
      Wrap64(BackoffSeconds(initial, c.restartCount, policy.BackoffMax()) * SECOND)
  }

  // ----- The agent -----

  /** The backend named in the agent's entry, in its role, and in the configuration if there is one. */
  datatype Backends = Backends(entry: string, role: string, config: Option<string>)

  /** The first of them that is not empty. */
  function Primary(b: Backends): string
  {
    if b.entry != "" then b.entry
    else if b.role != "" then b.role
    else if b.config.Some? then b.config.value else ""
  }

  /** Beyond the list of fallbacks the role is passed over. */
  function BeyondList(b: Backends): string
  {
    if b.entry == "" && b.config.Some? then b.config.value else b.entry
  }

  function Effective(b: Backends, fallbacks: seq<string>, idx: int): string
    requires idx >= 0
  {
    if idx == 0 then Primary(b) else if idx - 1 < |fallbacks| then fallbacks[idx - 1] else BeyondList(b)
  }

  class AgentProcess {
    const fallbackBackends: seq<string>
    const backends: Backends
    var restartCount: int
    var rateRetryCount: int
    var currentBackendIdx: int
    var lastExitCode: int
    var lastError: Option<AgentError>

    ghost function State(): Counters
      reads this
    {
      Counters(restartCount, rateRetryCount, currentBackendIdx, lastExitCode, lastError)
    }

    constructor (backends: Backends, fallbacks: seq<string>)
      ensures this.backends == backends && fallbackBackends == fallbacks && State() == INITIAL
    {
      this.backends := backends;
      fallbackBackends := fallbacks;
      restartCount, rateRetryCount, currentBackendIdx, lastExitCode, lastError := 0, 0, 0, 0, None;
    }

    method TryFallbackBackend() returns (triggered: bool)
      modifies this
      ensures (State(), triggered) == Failover(old(State()), |fallbackBackends|)
    {
      var numFallbacks := |fallbackBackends|;
      if lastError == None || numFallbacks == 0 {
        return false;
      }
      var shouldFailover := false;
      match lastError.value.class_ {
        case ModelNotFound => shouldFailover := true;
        case RateLimited => shouldFailover := rateRetryCount > 3;
        case _ =>
      }
      if !shouldFailover {
        return false;
      }
      var nextIdx := currentBackendIdx + 1;
      if nextIdx >= 1 + numFallbacks {
        return false;
      }
      currentBackendIdx := nextIdx;
      restartCount := 0;
      rateRetryCount := 0;
      return true;
    }

    method ShouldRestart(policy: Policy, longRun: bool) returns (again: bool)
      modifies this
      ensures (State(), again) == Restart(policy, old(State()), longRun)
    {
      if lastExitCode == 0 && lastError == None {
        restartCount := 0;
        rateRetryCount := 0;
        if longRun {
          currentBackendIdx := 0;
        }
        return true;
      }
      if lastError.Some? && lastError.value.class_ == NoWork {
        restartCount := 0;
        rateRetryCount := 0;
        return true;
      }
      if lastError.Some? && lastError.value.class_.IsFatal() {
        return false;
      }
      if lastError.Some? && lastError.value.class_ == RateLimited && policy.RateLimitNoCount() {
        rateRetryCount := rateRetryCount + 1;
        return true;
      }
      restartCount := restartCount + 1;
      rateRetryCount := 0;
      return restartCount <= policy.MaxRetries();
    }

    method HandleRestartAfterError(policy: Policy) returns (again: bool)
      modifies this
      ensures (State(), again) == RestartAfterError(policy, old(State()))
    {
      restartCount := restartCount + 1;
      again := restartCount <= policy.MaxRetries();
    }

    method ComputeBackoff(policy: Policy) returns (backoff: int)
      requires restartCount >= 0 && rateRetryCount >= 0
      ensures backoff == Backoff(policy, State())
    {
      var maxBackoff := policy.BackoffMax();
      if lastError.Some? && lastError.value.class_ == NoWork {
        return Wrap64(policy.NoWorkBackoff() * SECOND);
      }
      var initial, retryN;
      if lastError.Some? && lastError.value.class_ == RateLimited {
        initial, retryN := policy.RateLimitBackoff(), rateRetryCount;
        maxBackoff := policy.RateLimitMaxWait();
      } else if lastError.Some? && lastError.value.class_ == Timeout {
        initial, retryN := policy.TimeoutBackoff(), restartCount;
      } else {
        initial, retryN := policy.BackoffInitial(), restartCount;
      }
      if retryN > 30 {
        retryN := 30;
      }
      var backoffSec := Wrap64(initial * Pow2(retryN));
      if backoffSec > maxBackoff || backoffSec < 0 {
        backoffSec := maxBackoff;
      }
      backoff := Wrap64(backoffSec * SECOND);
      if lastError.Some? && lastError.value.class_ == RateLimited && lastError.value.retryAfter > backoff {
        backoff := lastError.value.retryAfter;
        if backoff > Wrap64(maxBackoff * SECOND) {
          backoff := Wrap64(maxBackoff * SECOND);
        }
      }
    }

    method GetEffectiveBackend() returns (backend: string)
      requires currentBackendIdx >= 0
      ensures backend == Effective(backends, fallbackBackends, currentBackendIdx)
    {
      if currentBackendIdx == 0 {
        backend := backends.entry;
        if backend == "" {
          backend := backends.role;
        }
        if backend == "" && backends.config.Some? {
          backend := backends.config.value;
        }
        return;
      }
      var fallbackIdx := currentBackendIdx - 1;
      if fallbackIdx < |fallbackBackends| {
        return fallbackBackends[fallbackIdx];
      }
      backend := backends.entry;
      if backend == "" && backends.config.Some? {
        backend := backends.config.value;
      }
    }
  }

  // ----- Counters over whole runs -----

  /** One trip round the supervisor loop. */
  datatype Cycle =
    | SpawnError
    | Exit(code: int, error: Option<AgentError>, longRun: bool, epicSwitch: bool)

  function AfterExit(c: Counters, code: int, error: Option<AgentError>): Counters
  {
    c.(lastExitCode := code, lastError := error)
  }

  /** The counters after the cycle, and whether the supervisor goes on. */
  function OneCycle(policy: Policy, fallbacks: nat, c: Counters, cycle: Cycle): (Counters, bool)
  {
    match cycle
    case SpawnError => RestartAfterError(policy, c)
    case Exit(code, error, longRun, epicSwitch) =>
      var exited := AfterExit(c, code, error);
      var switched := if epicSwitch then exited.(restartCount := 0) else exited;
      var (failed, triggered) := Failover(switched, fallbacks);
      if triggered then (failed, true) else Restart(policy, switched, longRun)
  }

  function AfterCycles(policy: Policy, fallbacks: nat, c: Counters, cycles: seq<Cycle>): Counters
  {
    if cycles == [] then c
    else OneCycle(policy, fallbacks, AfterCycles(policy, fallbacks, c, cycles[..|cycles| - 1]), cycles[|cycles| - 1]).0
  }

  /** The supervisor goes on after every one of the cycles. */
  predicate Survives(policy: Policy, fallbacks: nat, c: Counters, cycles: seq<Cycle>)
  {
    cycles == [] ||
    (var init := cycles[..|cycles| - 1];
     && Survives(policy, fallbacks, c, init)
     && OneCycle(policy, fallbacks, AfterCycles(policy, fallbacks, c, init), cycles[|cycles| - 1]).1)
  }

  /** Not a clean exit, not a lack of work, not an uncounted rate limit, no epic switch. */
  predicate CountsAsFailure(policy: Policy, cycle: Cycle)
  {
    match cycle
    case SpawnError => true
    case Exit(code, error, _, epicSwitch) =>
      && !epicSwitch && !(code == 0 && error == None)
      && (error.Some? ==>
            error.value.class_ != NoWork && !(error.value.class_ == RateLimited && policy.RateLimitNoCount()))
  }

  predicate OnlyFailures(policy: Policy, cycles: seq<Cycle>)
  {
    forall i | 0 <= i < |cycles| :: CountsAsFailure(policy, cycles[i])
  }

  predicate InBounds(c: Counters, fallbacks: nat)
  {
    && c.restartCount >= 0 && c.rateRetryCount >= 0 && 0 <= c.backendIdx <= fallbacks
    && (c.backendIdx < fallbacks ==> c.rateRetryCount <= 4)
  }

  /**
   In every run the backend index names a backend, and while a fallback is left at most 4 rate-limit
   retries are pending.
   */
  lemma {:induction false} CountersStayInBounds(policy: Policy, fallbacks: nat, cycles: seq<Cycle>)
    ensures InBounds(AfterCycles(policy, fallbacks, INITIAL, cycles), fallbacks)
  {
    if cycles != [] {
      CountersStayInBounds(policy, fallbacks, cycles[..|cycles| - 1]);
    }
  }

  /**
   So the branch that passes over the role is never taken: in every run the backend is the primary or
   a listed fallback.
   */
  lemma BackendIsNeverBeyondList(policy: Policy, b: Backends, fallbacks: seq<string>, cycles: seq<Cycle>)
    ensures var idx := AfterCycles(policy, |fallbacks|, INITIAL, cycles).backendIdx;
            && 0 <= idx <= |fallbacks|
            && Effective(b, fallbacks, idx) == if idx == 0 then Primary(b) else ([Primary(b)] + fallbacks)[idx]
  {
    CountersStayInBounds(policy, |fallbacks|, cycles);
  }

  /**
   Which backend that branch would name: another one if and only if the primary is the role's and the
   configuration's differs.
   */
  lemma BeyondListDiffersIff(b: Backends)
    ensures BeyondList(b) != Primary(b) <==>
            b.entry == "" && b.role != "" && b.config != Some(b.role)
  {
  }

  /** Bounds the cycles left: fallbacks left first, then retries left on this backend. */
  function Measure(policy: Policy, fallbacks: nat, c: Counters): int
  {
    (fallbacks - c.backendIdx) * (Max(policy.MaxRetries(), 0) + 1) + Max(policy.MaxRetries(), 0) - c.restartCount
  }

  /** One more retry, or the next backend from scratch. */
  predicate OneDown(c: Counters, c': Counters)
  {
    if c'.backendIdx == c.backendIdx then c'.restartCount == c.restartCount + 1
    else c'.backendIdx == c.backendIdx + 1 && c'.restartCount == 0
  }

  /** What a failure that is survived does to the counters. */
  lemma SurvivedFailure(policy: Policy, fallbacks: nat, c: Counters, cycle: Cycle)
    requires InBounds(c, fallbacks) && c.restartCount <= Max(policy.MaxRetries(), 0)
    requires CountsAsFailure(policy, cycle) && OneCycle(policy, fallbacks, c, cycle).1
    ensures var c' := OneCycle(policy, fallbacks, c, cycle).0;
            && InBounds(c', fallbacks) && c'.restartCount <= Max(policy.MaxRetries(), 0)
            && OneDown(c, c')
  {
  }

  /** The measure over plain numbers: `left` fallbacks, `used` of the retries before `width`. */
  lemma MeasureOfNumbers(left: nat, width: int, used: int)
    requires 0 <= used < width
    ensures left * width >= 0
    ensures left > 0 ==> (left - 1) * width + width == left * width && (left - 1) * width >= 0
  {
  }

  lemma MeasureDecreases(policy: Policy, fallbacks: nat, c: Counters, cycle: Cycle)
    requires InBounds(c, fallbacks) && c.restartCount <= Max(policy.MaxRetries(), 0)
    requires CountsAsFailure(policy, cycle) && OneCycle(policy, fallbacks, c, cycle).1
    ensures var c' := OneCycle(policy, fallbacks, c, cycle).0;
            && InBounds(c', fallbacks) && c'.restartCount <= Max(policy.MaxRetries(), 0)
            && 0 <= Measure(policy, fallbacks, c') < Measure(policy, fallbacks, c)
  {
    SurvivedFailure(policy, fallbacks, c, cycle);
    MeasureOfCounters(policy, fallbacks, c, OneCycle(policy, fallbacks, c, cycle).0);
  }

  lemma MeasureOfCounters(policy: Policy, fallbacks: nat, c: Counters, c': Counters)
    requires InBounds(c, fallbacks) && c.restartCount <= Max(policy.MaxRetries(), 0)
    requires InBounds(c', fallbacks) && c'.restartCount <= Max(policy.MaxRetries(), 0)
    requires OneDown(c, c')
    ensures 0 <= Measure(policy, fallbacks, c') < Measure(policy, fallbacks, c)
  {
    MeasureOfNumbers(fallbacks - c.backendIdx, Max(policy.MaxRetries(), 0) + 1, c.restartCount);
  }

  lemma {:induction false} SurvivalUsesUpMeasure(policy: Policy, fallbacks: nat, cycles: seq<Cycle>)
    requires Survives(policy, fallbacks, INITIAL, cycles)
    requires OnlyFailures(policy, cycles)
    ensures var c := AfterCycles(policy, fallbacks, INITIAL, cycles);
            && InBounds(c, fallbacks) && c.restartCount <= Max(policy.MaxRetries(), 0)
            && 0 <= Measure(policy, fallbacks, c)
            && |cycles| + Measure(policy, fallbacks, c) <= Measure(policy, fallbacks, INITIAL)
  {
    if cycles == [] {
      assert fallbacks * (Max(policy.MaxRetries(), 0) + 1) >= 0;
    } else {
      var init := cycles[..|cycles| - 1];
      SurvivalUsesUpMeasure(policy, fallbacks, init);
      MeasureDecreases(policy, fallbacks, AfterCycles(policy, fallbacks, INITIAL, init), cycles[|cycles| - 1]);
    }
  }

  function CycleBound(policy: Policy, fallbacks: nat): int
  {
    (1 + fallbacks) * (Max(policy.MaxRetries(), 0) + 1)
  }

  /** A supervisor that only meets failures stops within (1 + fallbacks) * (maxRetries + 1) cycles. */
  lemma FailuresStopTheSupervisor(policy: Policy, fallbacks: nat, cycles: seq<Cycle>)
    requires OnlyFailures(policy, cycles)
    requires |cycles| >= CycleBound(policy, fallbacks)
    ensures !Survives(policy, fallbacks, INITIAL, cycles)
  {
    var width := Max(policy.MaxRetries(), 0) + 1;
    assert (1 + fallbacks) * width == fallbacks * width + width;
    if Survives(policy, fallbacks, INITIAL, cycles) {
      SurvivalUsesUpMeasure(policy, fallbacks, cycles);
    }
  }

  // ----- The bound is reached -----

  function Repeat(cycle: Cycle, n: nat): seq<Cycle> { seq(n, _ => cycle) }

  const FLAKY := Exit(1, Some(AgentError(Transient, 0)), false, false)
  const GONE := Exit(1, Some(AgentError(ModelNotFound, 0)), false, false)

  /** maxRetries transient failures on each backend, and on each but the last a missing model after them. */
  function LongestRun(policy: Policy, backends: nat): seq<Cycle>
    requires policy.MaxRetries() >= 0
  {
    if backends == 0 then Repeat(FLAKY, policy.MaxRetries())
    else LongestRun(policy, backends - 1) + [GONE] + Repeat(FLAKY, policy.MaxRetries())
  }

  lemma OneMoreCycle(policy: Policy, fallbacks: nat, cycles: seq<Cycle>, cycle: Cycle)
    ensures AfterCycles(policy, fallbacks, INITIAL, cycles + [cycle]) ==
            OneCycle(policy, fallbacks, AfterCycles(policy, fallbacks, INITIAL, cycles), cycle).0
    ensures Survives(policy, fallbacks, INITIAL, cycles + [cycle]) <==>
            && Survives(policy, fallbacks, INITIAL, cycles)
            && OneCycle(policy, fallbacks, AfterCycles(policy, fallbacks, INITIAL, cycles), cycle).1
  {
    assert (cycles + [cycle])[..|cycles|] == cycles;
  }

  lemma TransientFailure(policy: Policy, fallbacks: nat, c: Counters)
    requires c.restartCount < policy.MaxRetries()
    ensures var (c', again) := OneCycle(policy, fallbacks, c, FLAKY);
            again && c'.restartCount == c.restartCount + 1 && c'.backendIdx == c.backendIdx
  {
  }

  lemma MissingModel(policy: Policy, fallbacks: nat, c: Counters)
    requires 0 <= c.backendIdx < fallbacks
    ensures var (c', again) := OneCycle(policy, fallbacks, c, GONE);
            again && c'.restartCount == 0 && c'.backendIdx == c.backendIdx + 1
  {
  }

  lemma {:induction false} TransientFailuresSurvive(policy: Policy, fallbacks: nat, cycles: seq<Cycle>, n: nat)
    requires n <= policy.MaxRetries() && Survives(policy, fallbacks, INITIAL, cycles)
    requires AfterCycles(policy, fallbacks, INITIAL, cycles).restartCount == 0
    ensures var run := cycles + Repeat(FLAKY, n);
            && Survives(policy, fallbacks, INITIAL, run)
            && AfterCycles(policy, fallbacks, INITIAL, run).restartCount == n
            && AfterCycles(policy, fallbacks, INITIAL, run).backendIdx ==
               AfterCycles(policy, fallbacks, INITIAL, cycles).backendIdx
  {
    var run := cycles + Repeat(FLAKY, n);
    if n == 0 {
      assert run == cycles;
    } else {
      var init := cycles + Repeat(FLAKY, n - 1);
      TransientFailuresSurvive(policy, fallbacks, cycles, n - 1);
      assert run == init + [FLAKY];
      OneMoreCycle(policy, fallbacks, init, FLAKY);
      TransientFailure(policy, fallbacks, AfterCycles(policy, fallbacks, INITIAL, init));
    }
  }

  lemma {:induction false} LongestRunSurvives(policy: Policy, fallbacks: nat, backends: nat)
    requires policy.MaxRetries() >= 0 && backends <= fallbacks
    ensures Survives(policy, fallbacks, INITIAL, LongestRun(policy, backends))
    ensures AfterCycles(policy, fallbacks, INITIAL, LongestRun(policy, backends)).backendIdx == backends
  {
    if backends == 0 {
      TransientFailuresSurvive(policy, fallbacks, [], policy.MaxRetries());
      assert LongestRun(policy, 0) == [] + Repeat(FLAKY, policy.MaxRetries());
    } else {
      LongestRunSurvives(policy, fallbacks, backends - 1);
      NextBackendSurvives(policy, fallbacks, LongestRun(policy, backends - 1));
    }
  }

  lemma NextBackendSurvives(policy: Policy, fallbacks: nat, before: seq<Cycle>)
    requires policy.MaxRetries() >= 0 && Survives(policy, fallbacks, INITIAL, before)
    requires 0 <= AfterCycles(policy, fallbacks, INITIAL, before).backendIdx < fallbacks
    ensures var run := before + [GONE] + Repeat(FLAKY, policy.MaxRetries());
            && Survives(policy, fallbacks, INITIAL, run)
            && AfterCycles(policy, fallbacks, INITIAL, run).backendIdx ==
               AfterCycles(policy, fallbacks, INITIAL, before).backendIdx + 1
  {
    OneMoreCycle(policy, fallbacks, before, GONE);
    MissingModel(policy, fallbacks, AfterCycles(policy, fallbacks, INITIAL, before));
    TransientFailuresSurvive(policy, fallbacks, before + [GONE], policy.MaxRetries());
  }

  lemma {:induction false} LongestRunCounts(policy: Policy, backends: nat)
    requires policy.MaxRetries() >= 0
    ensures var run := LongestRun(policy, backends);
            && |run| == backends + (1 + backends) * policy.MaxRetries()
            && OnlyFailures(policy, run)
  {
    if backends > 0 {
      LongestRunCounts(policy, backends - 1);
      assert (1 + backends) * policy.MaxRetries() == backends * policy.MaxRetries() + policy.MaxRetries();
    }
  }

  /** The bound cannot be lowered: for every policy and number of fallbacks some run survives one cycle less. */
  lemma BoundIsReached(policy: Policy, fallbacks: nat)
    requires policy.MaxRetries() >= 0
    ensures exists cycles ::
              && Survives(policy, fallbacks, INITIAL, cycles)
              && OnlyFailures(policy, cycles)
              && |cycles| + 1 == CycleBound(policy, fallbacks)
  {
    LongestRunSurvives(policy, fallbacks, fallbacks);
    LongestRunCounts(policy, fallbacks);
    var run := LongestRun(policy, fallbacks);
    assert (1 + fallbacks) * (policy.MaxRetries() + 1) == (1 + fallbacks) * policy.MaxRetries() + 1 + fallbacks;
  }

  // ----- Backoff -----

  lemma {:induction false} Pow2Grows(m: nat, n: nat)
    requires m <= n
    ensures 1 <= Pow2(m) <= Pow2(n)
    decreases n
  {
    if n > 0 {
      Pow2Grows(if m < n then m else m - 1, n - 1);
      if m == n {
        assert Pow2(m) == Pow2(n);
      }
    }
  }

  /** The doubling is exact if and only if the 64-bit product did not wrap into the range below the cap. */
  lemma DoublingIsExactUnlessWrapped(initial: int, n: nat, cap: int)
    requires initial >= 0 && 0 <= cap < INT64_LIMIT
    ensures var product := initial * Pow2(Min(n, 30));
            BackoffSeconds(initial, n, cap) == Min(product, cap) <==>
            product < INT64_LIMIT || Wrap64(product) < 0 || Wrap64(product) >= cap
  {
    var product := initial * Pow2(Min(n, 30));
    Pow2Grows(0, Min(n, 30));
    BoundedProduct(initial, 0, Pow2(Min(n, 30)));
    Wrap64Fits(product);
  }

  /** The family that fails: with an initial of 2^34 seconds the thirtieth retry would not wait at all. */
  lemma HugeInitialDoesNotWait(cap: int)
    requires cap >= 0
    ensures BackoffSeconds(0x4_0000_0000, 30, cap) == 0
  {
    Pow2Of30();
  }

  lemma Pow2Of30()
    ensures Pow2(30) == 0x4000_0000
  {
    assert Pow2(10) == 1024;
    assert Pow2(20) == 1024 * Pow2(10);
    assert Pow2(30) == 1024 * Pow2(20);
  }

  /** The ceiling of the backoff, by error class. */
  function Cap(policy: Policy, c: Counters): int
  {
    if LastErrorIs(c, RateLimited) then policy.RateLimitMaxWait() else policy.BackoffMax()
  }

  /** Whatever the initial settings and however the product wraps, the sleep is between zero and the ceiling. */
  lemma BackoffStaysUnderCap(policy: Policy, c: Counters)
    requires c.restartCount >= 0 && c.rateRetryCount >= 0 && !LastErrorIs(c, NoWork)
    requires 0 <= Cap(policy, c) && Cap(policy, c) * SECOND < INT64_LIMIT
    ensures 0 <= Backoff(policy, c) <= Cap(policy, c) * SECOND
  {
    Wrap64Fits(Cap(policy, c) * SECOND);
    if LastErrorIs(c, RateLimited) {
      Wrap64Fits(BackoffSeconds(policy.RateLimitBackoff(), c.rateRetryCount, Cap(policy, c)) * SECOND);
    } else {
      var initial := if LastErrorIs(c, Timeout) then policy.TimeoutBackoff() else policy.BackoffInitial();
      Wrap64Fits(BackoffSeconds(initial, c.restartCount, Cap(policy, c)) * SECOND);
    }
  }

  function Initial(policy: Policy, c: Counters): int
  {
    if LastErrorIs(c, RateLimited) then policy.RateLimitBackoff()
    else if LastErrorIs(c, Timeout) then policy.TimeoutBackoff()
    else policy.BackoffInitial()
  }

  function Retries(c: Counters): int { if LastErrorIs(c, RateLimited) then c.rateRetryCount else c.restartCount }

  /** The doubled initial does not overflow 64 bits. */
  predicate DoubledFits(policy: Policy, c: Counters)
    requires Retries(c) >= 0
  {
    Initial(policy, c) * Pow2(Min(Retries(c), 30)) < INT64_LIMIT
  }

  /**
   Without overflow: initial doubled per retry, at most 30 times, up to the cap; a longer server hint
   wins, but not past the cap.
   */
  lemma BackoffClosedForm(policy: Policy, c: Counters)
    requires c.restartCount >= 0 && c.rateRetryCount >= 0 && !LastErrorIs(c, NoWork)
    requires Initial(policy, c) >= 0 && DoubledFits(policy, c)
    requires 0 <= Cap(policy, c) && Cap(policy, c) * SECOND < INT64_LIMIT
    ensures var doubled := Min(Initial(policy, c) * Pow2(Min(Retries(c), 30)), Cap(policy, c)) * SECOND;
            Backoff(policy, c) ==
            if LastErrorIs(c, RateLimited) then Max(doubled, Min(c.lastError.value.retryAfter, Cap(policy, c) * SECOND))
            else doubled
  {
    DoublingIsExactUnlessWrapped(Initial(policy, c), Retries(c), Cap(policy, c));
    Wrap64Fits(Cap(policy, c) * SECOND);
    Pow2Grows(0, Min(Retries(c), 30));
    Wrap64Fits(Min(Initial(policy, c) * Pow2(Min(Retries(c), 30)), Cap(policy, c)) * SECOND);
  }

  lemma BoundedProduct(a: nat, b: nat, c: nat)
    requires b <= c
    ensures 0 <= a * b <= a * c
  {
  }

  /** More retries never shorten the sleep. */
  lemma BackoffIsMonotone(policy: Policy, c: Counters, c': Counters)
    requires c.restartCount >= 0 && c.rateRetryCount >= 0 && !LastErrorIs(c, NoWork)
    requires c'.lastError == c.lastError
    requires c.restartCount <= c'.restartCount && c.rateRetryCount <= c'.rateRetryCount
    requires Initial(policy, c) >= 0 && DoubledFits(policy, c')
    requires 0 <= Cap(policy, c) && Cap(policy, c) * SECOND < INT64_LIMIT
    ensures Backoff(policy, c) <= Backoff(policy, c')
  {
    Pow2Grows(Min(Retries(c), 30), Min(Retries(c'), 30));
    BoundedProduct(Initial(policy, c), Pow2(Min(Retries(c), 30)), Pow2(Min(Retries(c'), 30)));
    BackoffClosedForm(policy, c);
    BackoffClosedForm(policy, c');
    DoubledIsMonotone(Initial(policy, c), Min(Retries(c), 30), Min(Retries(c'), 30), Cap(policy, c));
  }

  lemma DoubledIsMonotone(initial: nat, m: nat, n: nat, cap: int)
    requires m <= n
    ensures Min(initial * Pow2(m), cap) * SECOND <= Min(initial * Pow2(n), cap) * SECOND
  {
    Pow2Grows(m, n);
    BoundedProduct(initial, Pow2(m), Pow2(n));
  }
}
