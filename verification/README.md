# Loom's coordination layer, in Dafny

This project models the part of Loom that decides who may work on what, when, and what survives, and
proves what it keeps. Each component is modelled in the form it has in the source: an object whose
fields change is a class whose methods are proved against functions on the state, a loop is a loop,
and what only computes is a function. Concurrency is modelled as a transition system with one step
per atomic script or locked region; every statement about "runs" quantifies over all sequences of
such steps, of any length, by any number of workers, detectors, supervisors, requests or callers.

| files | component |
|---|---|
| LeaseStore, LeaseProtocol, LeaseReplies, LeaseTheorems, LeaseCleanup, StaleDetector, OrphanTheorems | the Redis task leases: claim, heartbeat, complete, the reaping of stale workers in separate deletes, and what a cycle reports |
| ConcurrencyTracker, EpicAssigner, RestartPolicy, RestartLaws, Supervisor, SupervisorRuns, Shutdown | the daemon: slots per role, epics per worktree, restarts, failover and backoff, N supervisor loops that share them, and stopping them |
| CircuitBreaker, BreakerRuns, BreakerTransitions | the three-state breaker with requests in flight |
| LogRotation, EventLog | the rotating log writer and the JSONL event writer |
| Metrics, MetricsTheorems, HourlyBuckets, SnapshotLaws | the metrics store: pruning, working time, buckets by hour and location |
| CachedValue, CachedValueTheorems | the cached value that one caller collects for all |
| EnvExpander, EnvExpanderLaws | `${NAME}` expansion in configuration strings |
| TaskRouter | scoring and choosing tasks |
| Prelude | options, the order of strings, 64-bit wrap-around, counting |

`dafny verify dfyconfig.toml` checks everything.

## What the proofs brought up

Where a promise does not hold of the code, the code is kept, a concrete family that breaks the promise
is given, and the exact condition under which it holds is proved.

- A stale worker that comes back and claims a task loses it, or its session, at once if a cleanup of it
  is still under way (RevivedWorkerLosesItsLease, and ComebackLosesItsLease from empty tables).
  ClaimIsSafeIff gives the exact condition: the claim is safe if and only if every pending job on the
  worker is past its session delete, or has read a task name at which it will give up. LiveWorkerIsSafe draws the consequences under that condition; it needs no
  leader election.
- With a stale threshold of at least the TTL, as both defaults of 300 seconds make it, a worker has lost
  its session by the time it is stale. A cycle that reads the sessions at once then never finds an orphaned
  task to reopen, however many workers it reaps (NoOrphansWhenThresholdCoversTtl).
- With a smaller threshold, a cleanup cut short after the owner key leaves a session that still names the
  task; the next cycle reports the task as an orphan though another worker has claimed it by then
  (RivalsTaskIsReported). Expiry never brings this about, only an interrupted or concurrent cleanup does
  (OrphansBelongToTheDead), and OrphanIsUnownedUnlessReclaimed says exactly which orphans are unowned.
- An error that ShouldTrip ignores frees no half-open probe slot. Such errors can leak every slot, and
  then the breaker never admits a request again without a Reset. NeverAdmitsAgainIffWedged gives the
  states for which this is so. With the default ShouldTrip no returned error leaks a slot, but a function that
  panics does, as Execute has no deferred call (breaker.go:107-117). Every breaker can be brought there from
  its start by such requests (EveryBreakerCanWedge).
- Stop signals each agent once, and an agent between its slot and its spawn has no subprocess yet and does not
  look at the shutdown signal again before it spawns one. Exactly then a subprocess can run that Stop has not
  signalled, and Stop waits for it to exit by itself (StopMissesIff). Apart from that a supervisor is done
  within 13 steps of its own (SupervisorIsSoonGone).
- The doubling of the restart backoff is exact unless the 64-bit product wraps into the range below the
  cap (DoublingIsExactUnlessWrapped); an initial of 2^34 seconds then waits not at all.
- The accumulated working time of an agent is never pruned. The reported utilization is the share of the
  retention window, as its comments say, if and only if no closed work is older than the window or the
  agent worked throughout it (ReportIsWindowWorkIff); an agent that has only worked before the window is
  reported as working (OldWorkIsReported). A stop that is delivered after a later start makes the working time
  negative (LateStopIsNegative).
- Hours are map keys of type time.Time, which Go compares by instant and Location. A snapshot lists an hour
  twice when two tasks of it carry different locations, as after a replay of a log with other offsets
  (OneHourTwice); each hour is listed once if and only if all tasks of an hour have the same location
  (OneBucketAnHourIff). The buckets add up to the totals in either case.
- A caller may wait for a collection that panics, and is then answered with whatever is cached when it
  wakes: an older value, however old, a later one if one has been stored by then, or the zero value when
  nothing was ever stored (PanicAnswersNothing). At the moment a channel is closed, its waiters are sure of
  a value from that collection or a later one if and only if the collection did not panic
  (WaitersAreServedIff).
- The branch of getEffectiveBackend for an index beyond the fallbacks passes over the role's backend
  (BeyondListDiffersIff), but no run gets there (BackendIsNeverBeyondList).
- Expansion of a concatenation is the concatenation of the expansions exactly when the scan of the first
  part does not end on a bare `$` (ConcatenationIff). A `:?` message that contains `:-` is taken for a
  default of an oddly named variable (MustHaveReference), which the documented syntax does not say; the
  documented meaning holds exactly for messages without `:-` (DemandIsMetIff).
- The task filter value `needs_design` of the configuration validator is unknown to the router, which
  treats it as `has_design`; the model follows the router. The priority bonus wraps around in 64-bit
  arithmetic for priorities beyond 2^61 (BonusIsClampedIff).

## Model

| member | source | states |
|---|---|---|
| LeaseStore.KeysDoNotCollide | internal/kv/scripts.go:19-29 | the three key builders and the default leader key never give two different things the same key, so the tables may be kept apart |
| LeaseStore.KvClient.ClaimTask | internal/kv/client.go:118-164 | checks both ids, runs the claim script, and answers Done or with the holder; on any refusal nothing changes |
| LeaseStore.KvClient.Heartbeat | internal/kv/client.go:178-218 | moves the score, session deadline and the deadline of the named task if it is still the worker's own, or answers that the session is gone |
| LeaseStore.KvClient.CompleteTask | internal/kv/client.go:231-275 | only the owner completes; the lease goes, and the session loses its task |
| LeaseStore.KvClient.DeleteTaskOwnerIfMatch | internal/kv/client.go:379-395 | deletes the owner key only while it names the expected worker; an absent key counts as deleted |
| LeaseStore.KvClient.GetStaleWorkers | internal/kv/client.go:322-340 | exactly the active workers with a score at or below now minus the threshold, each once |
| LeaseStore.KvClient.DeleteWorkerState | internal/kv/client.go:409-417 | removes that worker's session and nothing else |
| LeaseStore.KvClient.RemoveActiveWorker | internal/kv/client.go:420-428 | removes that worker's sorted-set entry and nothing else |
| LeaseStore.KvClient.Advance | internal/kv/scripts.go:52-60 | expiry: exactly the owner keys, sessions and leader key whose deadline has been reached are gone; the sorted set stays |
| LeaseStore.KvClient.SetLeaderKey | internal/kv/client.go:430-439 | takes the leader key if and only if it is free |
| LeaseStore.KvClient.RenewLeaderKey | internal/kv/client.go:442-450 | extends the key for whoever holds it |
| LeaseReplies.RejectedIff | internal/kv/client.go:465-473 | the client takes an id unless it is empty or has a colon, a space, a tab or a line break in it |
| LeaseReplies.ClaimSucceedsIff | internal/kv/scripts.go:46-63 | a claim is refused if and only if somebody else holds the task, in that name; otherwise lease, session and score are exactly these |
| LeaseReplies.HeartbeatSucceedsIff | internal/kv/scripts.go:77-98 | a beat finds no session if and only if there is none, ownership lost if and only if the session names a task that somebody else holds; otherwise, with or without a task, it renews session, score and lease |
| LeaseReplies.CompletionSucceedsIff | internal/kv/scripts.go:114-130 | task not found if and only if nobody holds it, not owner if and only if somebody else does; otherwise the lease goes and the worker is idle |
| LeaseReplies.LeaseGoesRound | internal/kv/scripts.go:46-130 | claim, beat and completion of a free task succeed one after the other, others are refused until then and granted after |
| LeaseReplies.ScanListsIff | internal/kv/stale.go:245-269 | a scan lists a worker if and only if it has not been heard of for the threshold |
| LeaseReplies.JobRunsToItsEnd | internal/kv/stale.go:245-292 | a job that nothing comes between takes the lease the session names, the session and the entry, nothing else, and ends; with a rejected name it ends and takes nothing |
| LeaseTheorems.LiveWorkerIsSafe | internal/kv/scripts.go:46-98 | a worker that claims while every pending job on it is past its session delete, and beats more often than TTL and threshold, keeps its task in every interleaving: its beats succeed, rivals are refused in its name, no detector lists it anew |
| LeaseTheorems.RevivedWorkerLosesItsLease | internal/kv/stale.go:271-292 | from any state in which a worker is stale: listed by a scan, it claims, and the cleanup takes the lease with no time passing |
| LeaseTheorems.ComebackLosesItsLease | internal/kv/stale.go:271-292 | such a run from empty tables, for any TTL and any threshold that is not negative |
| LeaseTheorems.ClaimIsSafeIff | internal/kv/stale.go:271-292 | after a granted claim the worker keeps the task and all its beats succeed in every punctual run if and only if every pending job on it is past its session delete or will give up on a rejected task name |
| LeaseTheorems.HarmfulJobEndsTheSession | internal/kv/stale.go:245-292 | a job that has not got so far ends the session in its next steps, and the next beat is refused, with no time passing |
| LeaseReplies.IdleWorkerIsSafe | internal/kv/scripts.go:77-130 | a worker that completes its task and then beats punctually keeps its session in every interleaving, its beats succeed and no detector lists it |
| LeaseReplies.IdleWorkerIsSafeIff | internal/kv/stale.go:271-292 | this holds for all punctual continuations if and only if every job pending on the worker is past its session delete or will give up |
| LeaseTheorems.OwnerIsLatestClaimer | internal/kv/scripts.go:46-63 | in every reachable state the owner of a task is the worker last granted it, and nothing released it since |
| LeaseTheorems.CompletionIsByLatestClaimer | internal/kv/scripts.go:114-130 | a successful completion is by the worker last granted the task, with nothing in between |
| LeaseTheorems.HandoverIsThroughUnowned | internal/kv/scripts.go:46-63 | between two different owners of a task lies a state in which nobody owns it |
| LeaseTheorems.CompletionsNeverOutnumberClaims | internal/kv/scripts.go:46-130 | successful completions, plus one while the task is held, never exceed successful claims |
| LeaseTheorems.LossHasACause | internal/kv/stale.go:271-292 | one step takes a lease, session or entry from a worker if and only if it is that worker's completion, its deadline, or a detector's job on that very worker |
| LeaseCleanup.OthersLeaveWorkerAlone | internal/kv/scripts.go:143-153 | steps of other workers and of detectors on other workers change nothing of a worker, nor the jobs on it |
| LeaseTheorems.JobComesFromStaleScan | internal/kv/stale.go:245-269 | every pending job on a worker was made by a scan of the same detector that found the worker stale, and has been pending without a break since |
| LeaseTheorems.ScoreIsLastContact | internal/kv/scripts.go:52-95 | a worker's score is never earlier than any of its successful calls |
| LeaseTheorems.ReapFollowsSilence | internal/kv/stale.go:245-292 | whatever falls in between, a reaping delete takes effect only for the job its own scan made, and the worker had been silent for the threshold before that scan |
| LeaseCleanup.LeaseNeverOutlivesSession | internal/kv/scripts.go:52-95 | from any state without a trace of the worker and while it is not unregistered, each lease it owns expires no later than its session and is covered by its score plus TTL |
| LeaseCleanup.SessionNamesTheLease | internal/kv/scripts.go:52-60 | the session of a worker that claims one task at a time names the task it owns |
| LeaseCleanup.OneTaskWorkerIsAccounted | internal/kv/scripts.go:52-95 | starting without a trace, at first or after any cleanup, a worker that claims one task at a time can be found and cleaned up completely by a later scan, exactly when no pending job has read a task it no longer holds |
| LeaseCleanup.DeadWorkerStaysAccounted | internal/kv/stale.go:271-292 | after it falls silent this stays so, whatever others do and wherever any cleanup of it is cut short |
| LeaseCleanup.FinishedCleanupLeavesNoTrace | internal/kv/stale.go:271-292 | once any cleanup of it reaches its last delete, no lease, session or entry is left, for ever |
| LeaseCleanup.RerunCleansUpDeadWorker | internal/kv/stale.go:245-292 | after cleanups cut short at any point, one more scan and cleanup leaves no lease, session or entry |
| LeaseCleanup.NoTraceIsFinal | internal/kv/stale.go:271-292 | of a silent worker nothing ever comes back |
| LeaseCleanup.DeadlinesStayAhead | internal/kv/scripts.go:46-98 | no deadline in the tables has passed or is more than the TTL away |
| LeaseCleanup.SilenceForTtlReleasesEverything | internal/kv/scripts.go:46-98 | with any or no detector, a worker silent for the TTL owns nothing and has no session |
| StaleDetector.Detector.TryAcquireLeadership | internal/kv/stale.go:213-228 | leader if and only if the key was free, or a successful look finds this server in it, whatever has become of the key by then; a free key is taken for the leader TTL; a failing SET NX is an error and changes nothing |
| StaleDetector.Detector.DetectStaleWorkers | internal/kv/stale.go:245-269 | reports every stale worker once, with the task, title and heartbeat of its session |
| StaleDetector.Detector.CleanupWorker | internal/kv/stale.go:271-292 | the three deletes in order; a rejected id stops before the later deletes; the owner check's answer is not looked at |
| StaleDetector.Detector.RunCycle | internal/kv/stale.go:134-211 | a failed election changes nothing, a non-leader nothing but its status; a leader cleans up what it detected, reports the orphans of the cleanups that succeeded, counts those the reconciler resets, and renews the leader key |
| StaleDetector.CleanupsInClosedForm | internal/kv/stale.go:271-292 | cleaning up a list of workers in terms of the tables it started from: which leases, sessions and entries go, all others unchanged |
| StaleDetector.CycleReapsExactlyTheStale | internal/kv/stale.go:134-211 | an undisturbed cycle removes sessions and entries of exactly the stale workers, and exactly the leases a stale owner's own session names |
| StaleDetector.OrphanIsUnownedUnlessReclaimed | internal/kv/stale.go:171-211 | from any tables, a reported orphan is unowned afterwards if and only if it was unowned before or held by a stale worker whose session named it |
| StaleDetector.OrphansReportEveryTask | internal/kv/stale.go:171-211 | every cleaned-up worker whose session named a task contributes that task to the orphans |
| StaleDetector.OrphanIff | internal/kv/stale.go:171-188 | the orphans are the tasks of the workers that were cleaned up, with their fields, and nothing else |
| StaleDetector.ReconciledCounts | internal/kv/stale.go:190-205 | the tasks counted as reconciled are the orphans that the reconciler resets |
| StaleDetector.CleanupIff | internal/kv/stale.go:271-292 | one cleanup takes session, entry and the reported lease of that worker, or nothing when a name is rejected |
| OrphanTheorems.StaleWorkersHaveNoSession | internal/kv/stale.go:245-269 | with threshold at least TTL, in no reachable state does a stale worker have a session |
| OrphanTheorems.NoOrphansWhenThresholdCoversTtl | internal/kv/stale.go:171-188 | a cycle run in any such state finds no orphaned task |
| OrphanTheorems.SessionsOwnTheirTasks | internal/kv/scripts.go:46-130 | until a cleanup clears a lease of the worker, it owns the task its session names and both expire together |
| OrphanTheorems.OrphansBelongToTheDead | internal/kv/stale.go:171-188 | an orphan of a worker that no earlier cleanup has got to is owned by that worker before the cycle and by nobody after it |
| OrphanTheorems.RivalsTaskIsReported | internal/kv/stale.go:171-211 | for any threshold below the TTL, a run from empty tables after which the next cycle reports an orphan that another worker owns before and after |
| OrphanTheorems.IdsStayValid | internal/kv/client.go:465-473 | only names that the client accepts get into the tables |
| ConcurrencyTracker.Tracker.TestForSlot | internal/cli/concurrency.go:39-66 | a pass of Acquire under the lock: refused when closed, granted and counted when the role has room, otherwise to sleep |
| ConcurrencyTracker.Tracker.TryAcquire | internal/cli/concurrency.go:68-91 | grants and counts exactly when open and below the limit, otherwise changes nothing |
| ConcurrencyTracker.Tracker.Release | internal/cli/concurrency.go:94-109 | takes one from the role's count, or resets a count that is not positive; tells whether sleepers are woken |
| ConcurrencyTracker.Tracker.Close | internal/cli/concurrency.go:138-150 | closes the tracker and wakes everybody |
| ConcurrencyTracker.NoLostWakeup | internal/cli/concurrency.go:39-109 | in every reachable state nobody sleeps on a free slot or a closed tracker, and no role is over its limit, unmatched releases included |
| ConcurrencyTracker.CloseIsFinal | internal/cli/concurrency.go:138-150 | after Close no acquire ever succeeds and nobody is asleep |
| ConcurrencyTracker.CallerIsToldIff | internal/cli/concurrency.go:39-66 | from every state: refused if and only if closed, granted and counted if and only if open with room, otherwise asleep |
| ConcurrencyTracker.TryIsGrantedIff | internal/cli/concurrency.go:68-91 | a try is granted under the same condition and never sleeps |
| ConcurrencyTracker.CountIsHeld | internal/cli/concurrency.go:39-109 | in every run the count of a role is the number of its slots granted and not given back |
| ConcurrencyTracker.GrantedIffSlotIsFree | internal/cli/concurrency.go:24-66 | in every run, while the tracker is open, a caller that tests is granted if and only if its role has no configured limit or fewer slots held than that |
| ConcurrencyTracker.ReleaseServesASleeper | internal/cli/concurrency.go:94-109 | after a release of its role a sleeper that tests next is granted |
| ConcurrencyTracker.CloseRefusesASleeper | internal/cli/concurrency.go:138-150 | after a close a sleeper that tests next is refused |
| ConcurrencyTracker.ReleaseWakesIff | internal/cli/concurrency.go:94-109 | a release takes one from a positive count and wakes every sleeper, and otherwise resets the count and wakes nobody |
| EpicAssigner.Assigner.AssignWorktree | internal/cli/daemon_epic.go:38-97 | keeps an assignment there is; otherwise assigns the best candidate, or none, and reports a failed query without change |
| EpicAssigner.Assigner.ReleaseWorktree | internal/cli/daemon_epic.go:101-109 | removes that worktree's assignment and no other |
| EpicAssigner.CandidatesAreTheCandidates | internal/cli/daemon_epic.go:57-78 | the filter keeps exactly the unassigned epics with ready tasks |
| EpicAssigner.NothingIsBetterThanBest | internal/cli/daemon_epic.go:84-97 | the epic taken after sorting is one of the candidates and no candidate has lower priority number, or the same and a smaller id |
| EpicAssigner.AssignmentIsBestAndExclusive | internal/cli/daemon_epic.go:38-97 | a new assignment is open, ready, held by no other worktree, and nothing better was free; no other entry changes |
| EpicAssigner.LowestNumberIsAssigned | internal/cli/daemon_epic.go:57-97 | the epic assigned is open, ready and held by nobody, and every other such epic has a higher priority number, or the same and a later id |
| EpicAssigner.AssignmentIsKept | internal/cli/daemon_epic.go:38-78 | nothing changes for a worktree that has an epic, after a failed query, and when no epic is free |
| Prelude.StringLessIff | internal/cli/daemon_epic.go:84-90 | ids are ordered by the first character in which they differ, a prefix coming first |
| RestartPolicy.AgentProcess.TryFallbackBackend | internal/cli/daemon_backend.go:43-92 | moves to the next backend, counters reset, exactly on the failures that call for it while a fallback is left |
| RestartPolicy.AgentProcess.ShouldRestart | internal/cli/daemon_restart.go:38-83 | the new counters and the decision for every kind of exit |
| RestartPolicy.AgentProcess.HandleRestartAfterError | internal/cli/daemon_restart.go:12-34 | counts one more retry and goes on while within maxRetries |
| RestartPolicy.AgentProcess.ComputeBackoff | internal/cli/daemon_restart.go:87-138 | the sleep, with the source's 64-bit arithmetic |
| RestartPolicy.AgentProcess.GetEffectiveBackend | internal/cli/daemon_backend.go:11-38 | index 0: the first of entry, role and configuration that names a backend; then the listed fallbacks; beyond them entry and configuration only |
| RestartPolicy.BackendIsNeverBeyondList | internal/cli/daemon_backend.go:11-38 | in every run the backend is the primary or a listed fallback |
| RestartPolicy.BeyondListDiffersIff | internal/cli/daemon_backend.go:32-37 | when the branch beyond the list would name another backend than the primary |
| RestartPolicy.CountersStayInBounds | internal/cli/daemon_backend.go:43-92 | in every run the backend index is at most the number of fallbacks, and while one is left at most 4 rate-limit retries are pending |
| RestartPolicy.MeasureDecreases | internal/cli/daemon_restart.go:38-83 | every failure that the supervisor survives lowers (fallbacks left, retries left) |
| RestartPolicy.SurvivalUsesUpMeasure | internal/cli/daemon_restart.go:38-83 | n survived failures use up n of the measure |
| RestartPolicy.FailuresStopTheSupervisor | internal/cli/daemon_restart.go:12-83 | with failures only, exits with an unclassified error code included, the supervisor has stopped after (1 + fallbacks) * (maxRetries + 1) cycles |
| RestartPolicy.BoundIsReached | internal/cli/daemon_restart.go:12-83 | for every policy and number of fallbacks some run of failures survives one cycle less than that |
| RestartPolicy.DoublingIsExactUnlessWrapped | internal/cli/daemon_restart.go:100-138 | the seconds equal min(initial * 2^min(n,30), cap) if and only if the product did not wrap into the range below the cap |
| RestartPolicy.HugeInitialDoesNotWait | internal/cli/daemon_restart.go:100-138 | a concrete setting for which it does wrap, to no wait |
| RestartPolicy.BackoffStaysUnderCap | internal/cli/daemon_restart.go:87-138 | whatever wraps, the sleep is between zero and the cap |
| RestartPolicy.BackoffClosedForm | internal/cli/daemon_restart.go:87-138 | where the doubled initial fits 64 bits: min(initial * 2^min(n,30), cap), raised to the Retry-After hint for rate limits but never past the cap |
| RestartPolicy.BackoffIsMonotone | internal/cli/daemon_restart.go:87-138 | more retries never shorten the sleep, as long as the doubled initial fits 64 bits |
| RestartLaws.GoesOnIff | internal/cli/daemon_restart.go:12-83 | the supervisor ends if and only if no failover is due and the error is fatal, or counted after the last retry; or a start has failed after the last retry |
| RestartLaws.CountersAfterExit | internal/cli/daemon_restart.go:38-83 | backend, retries and rate retries after each kind of exit: only a missing model or more than three rate limits move to the next backend, only a long clean run returns to the first |
| RestartLaws.FatalErrorIsLast | internal/cli/daemon_restart.go:64-69 | no run goes on after an authentication or billing error |
| RestartLaws.HarmlessCyclesSurvive | internal/cli/daemon_restart.go:45-76 | clean exits, lack of work and uncounted rate limits never stop a supervisor and use up no retry, however many |
| RestartLaws.RetriesAreSpentOneByOne | internal/cli/daemon_restart.go:12-83 | without fallbacks a series of failures is survived if and only if it is no longer than maxRetries |
| RestartLaws.NoWorkWaitIsFixed | internal/cli/daemon_restart.go:96-99 | a lack of work waits its own setting, whatever the counters |
| RestartLaws.DefaultWaits | internal/cli/daemon_restart.go:87-202 | the waits, the retries and the counting of rate limits under the default policy |
| Supervisor.SlotsAreConserved | internal/cli/daemon.go:214-311 | in every reachable state of N supervisors each role's count is the number of its supervisors holding a slot, at most the limit, and nobody sleeps on a free slot |
| Supervisor.EverySupervisorIsDisciplined | internal/cli/daemon.go:214-360 | a supervisor releases only a slot it holds and that is counted, returns or waits only without one, and gets none after the tracker closes |
| Supervisor.EpicsStaySound | internal/cli/daemon_epic.go:175-268 | the assignment map stays injective and agrees with each agent's epic through assignment, transition, rollback and release |
| Supervisor.BranchesDiffer | internal/cli/daemon_branch.go:9-11 | epic branches and branches named after valid worktrees never coincide |
| Supervisor.LiveBranchesAreDistinct | internal/cli/daemon.go:240-308 | the worktrees of two live subprocesses are never on the same branch, and each is on the branch of the epic the map holds for it, a branch being changed only by a switch that succeeds |
| Supervisor.NothingIsLeftBehind | internal/cli/daemon.go:195-360 | when every supervisor has returned, no slot is counted and no epic is assigned |
| Supervisor.DecideIsOneCycle | internal/cli/daemon.go:311-360 | failover and restart decision together are the cycle that the restart bound speaks of |
| Supervisor.CountersStaySound | internal/cli/daemon.go:214-360 | in every interleaving an agent's counters are what its own decided cycles make of them |
| Supervisor.SupervisorStopsAfterFailures | internal/cli/daemon.go:214-360 | an agent that met only failures has decided on at most (1 + fallbacks) * (maxRetries + 1) cycles and then goes round no more |
| Supervisor.EveryAgentStaysInBounds | internal/cli/daemon_backend.go:43-92 | in every reachable state of the daemon every agent's backend index names a backend, returned supervisors included |
| SupervisorRuns.FailedStartIsCounted | internal/cli/daemon.go:256-279 | a failed switch or spawn starts nothing and leaves the branch; the next step of the agent gives the slot back and the one after counts exactly one failed start, whatever others do in between |
| SupervisorRuns.FailedStartNeedsANewSlot | internal/cli/daemon.go:228-279 | after a failed start no subprocess of the agent runs before it has asked for and got a slot anew |
| SupervisorRuns.SlotComesFirst | internal/cli/daemon.go:228-279 | an agent without a slot comes to run a subprocess only through a granted Acquire, with the tracker open and room for its role |
| SupervisorRuns.SlotIsGrantedIff | internal/cli/daemon.go:228-232 | in every reachable state an agent that asks gets a slot if and only if the tracker is open and fewer agents of its role hold one than the configured limit; it returns if and only if the tracker is closed, and otherwise sleeps |
| SupervisorRuns.ReturnsIff | internal/cli/daemon.go:214-360 | exactly which steps make a supervisor return: shutdown at the top, after an exit or in a wait, a closed tracker, giving up, or one failed start too many |
| SupervisorRuns.OnlyFailuresEndASupervisor | internal/cli/daemon.go:214-360 | with neither shutdown nor a closed tracker it ends only by giving up after an exit or by one failed start too many |
| SupervisorRuns.ExitIsRecorded | internal/cli/daemon.go:281-286 | the exit code and error that are decided on are those of the last exit |
| SupervisorRuns.HealthyAgentStarts | internal/cli/daemon.go:218-282 | from the top of the loop, with room and nothing failing, six steps lead to a subprocess on the branch of the assigned epic |
| SupervisorRuns.ExitIsDecidedOn | internal/cli/daemon.go:281-326 | after an exit four steps lead to the decision, with assignment and slot given back |
| SupervisorRuns.DecisionLeadsOn | internal/cli/daemon.go:327-360 | from the decision the loop starts again, at once after a failover, otherwise after a wait, unless it gives up |
| SupervisorRuns.EpicIsKept | internal/cli/daemon_epic.go:175-196 | an epic with ready tasks, or that cannot be looked up, is kept |
| SupervisorRuns.NextEpicIsTakenOver | internal/cli/daemon_epic.go:206-247 | an exhausted epic is left for the next one: after a successful switch with retries restored, after a failed one with the new assignment dropped and the agent as it was |
| SupervisorRuns.EpicModeIsLeft | internal/cli/daemon_epic.go:218-268 | without a next epic the agent goes on without one, with retries restored if its own branch could be switched to |
| Shutdown.StopMissesIff | internal/cli/daemon.go:195-271 | once shutdown is signalled and the tracker closed, a subprocess that Stop has not signalled can run after Stop has come to its agent if and only if the agent was then between a granted slot and its spawn |
| Shutdown.StopIsUnderWayIff | internal/cli/daemon.go:195-203 | shutdown is signalled and the tracker closed exactly from the events on that say so |
| Shutdown.SupervisorIsSoonGone | internal/cli/daemon.go:214-360 | from then on a supervisor is gone after 13 steps of its own, the exit of its subprocess included, in every interleaving |
| Shutdown.StopLeavesNothingBehind | internal/cli/daemon.go:195-360 | when each has had these steps, no slot is counted and no epic is assigned |
| CircuitBreaker.Breaker.constructor | internal/circuitbreaker/breaker.go:84-105 | closed and without failures; settings that are not positive get their defaults |
| CircuitBreaker.Breaker.BeforeRequest | internal/circuitbreaker/breaker.go:177-199 | admits or refuses, with the move to half-open and the probe slots |
| CircuitBreaker.Breaker.AfterRequest | internal/circuitbreaker/breaker.go:202-243 | the new state and counters for each way a request can end in each state it can end in |
| CircuitBreaker.Breaker.Reset | internal/circuitbreaker/breaker.go:152-165 | closes and clears, and reports a transition only if there was one |
| CircuitBreaker.Breaker.GetState | internal/circuitbreaker/breaker.go:131-174 | closed exactly when closed, open exactly when the next request is refused for it, half-open exactly when the next request finds or makes the breaker half-open |
| BreakerRuns.SlotsAreAccountedFor | internal/circuitbreaker/breaker.go:177-243 | in every run probe slots are taken exactly in half-open, at most the limit, each held by a request in flight or leaked by one that ended uncounted |
| BreakerRuns.NothingLeaksWhenEveryErrorTrips | internal/circuitbreaker/breaker.go:94-96 | as long as no error is ignored and no function panics, no slot is ever leaked |
| BreakerRuns.HalfOpenSlotsWhenEveryErrorTrips | internal/circuitbreaker/breaker.go:191-236 | the slots then equal the admissions since entering half-open, none yet returned, and any completion leaves half-open |
| BreakerRuns.NeverAdmitsAgainIffWedged | internal/circuitbreaker/breaker.go:177-243 | without Reset a breaker never admits again if and only if it is half-open with all slots taken and nothing in flight; then all slots were leaked |
| BreakerRuns.UncountedProbeWedges | internal/circuitbreaker/breaker.go:202-243 | the last free probe ending with an ignored error brings that about |
| BreakerRuns.WedgeLasts | internal/circuitbreaker/breaker.go:177-199 | a wedged breaker refuses in every continuation without Reset |
| BreakerRuns.EveryBreakerCanWedge | internal/circuitbreaker/breaker.go:107-243 | whatever its settings, a run from the start without Reset leads to a wedged breaker |
| BreakerRuns.NothingIsAdmittedWhileOpen | internal/circuitbreaker/breaker.go:177-199 | after a trip at T nothing is admitted before T + OpenTimeout, whatever ends meanwhile |
| BreakerRuns.StreakStaysSound | internal/circuitbreaker/breaker.go:202-243 | while closed, consecutiveFail is the number of tripping completions since the last success, close or Reset, and below the threshold |
| BreakerRuns.OpensExactlyAtThreshold | internal/circuitbreaker/breaker.go:202-243 | a closed breaker opens on exactly the threshold-th tripping completion in a row |
| BreakerTransitions.DefaultsApply | internal/circuitbreaker/breaker.go:84-96 | every breaker has positive settings: its own, or 5 failures, 30 seconds and one probe |
| BreakerTransitions.AdmittedIff | internal/circuitbreaker/breaker.go:177-199 | a request is admitted if and only if the breaker is closed, has been open for the timeout, or is half-open with a slot free |
| BreakerTransitions.StateAfterEvent | internal/circuitbreaker/breaker.go:177-243 | the state after every event from every state |
| BreakerTransitions.ClosesIff | internal/circuitbreaker/breaker.go:226-236 | without Reset a breaker closes if and only if a request returns with success in half-open |
| BreakerTransitions.ChangesAreStamped | internal/circuitbreaker/breaker.go:152-245 | lastStateChange and openedAt are the times of the last change of state and of the last opening |
| BreakerTransitions.ProbeThatTripsReopens | internal/circuitbreaker/breaker.go:218-222 | a trip in half-open opens the breaker from now on: nothing is admitted for the open timeout, whatever follows without Reset |
| BreakerTransitions.ProbeThatSucceedsCloses | internal/circuitbreaker/breaker.go:226-236 | a success in half-open closes it with no failure counted, and every request is admitted until as many have tripped as the threshold |
| BreakerTransitions.TotalsCountReturns | internal/circuitbreaker/breaker.go:202-226 | in every run failures and successes count the requests that have returned so |
| LogRotation.ShiftBackups | internal/logrouter/rotation.go:66-104 | the downward rename loop moves every file up by one and drops only the oldest |
| LogRotation.RenameStep | internal/logrouter/rotation.go:66-104 | no rename of the loop meets an existing target |
| LogRotation.ShiftKeepsTheRest | internal/logrouter/rotation.go:66-104 | a rotation loses at most the oldest bytes and keeps the order of the rest, gaps in the chain included |
| LogRotation.RotatingWriter.Write | internal/logrouter/rotation.go:50-61 | rotates first when the write would not fit, then appends all of it to the current file |
| LogRotation.RotatingWriter.Rotate | internal/logrouter/rotation.go:66-104 | shifts the backups and starts an empty current file of tracked size 0 |
| LogRotation.WriteKeepsASuffix | internal/logrouter/rotation.go:50-104 | one write ends whole in the current file, and loses exactly the bytes that a rotation drops |
| LogRotation.OneWriteHolds | internal/logrouter/rotation.go:50-104 | tracked size stays the size of the current file and is at most max(maxSize, length) |
| LogRotation.RotationKeepsTheNewest | internal/logrouter/rotation.go:66-104 | what the current file and the r - 1 newest backups held is still there one place up |
| LogRotation.FilesHoldASuffix | internal/logrouter/rotation.go:50-104 | after any writes the files, oldest first, are a suffix of what was there followed by all bytes written |
| LogRotation.RecentWritesSurvive | internal/logrouter/rotation.go:50-104 | after any writes, everything written since the rotation before the last r is still in the files, for every r up to maxBackups |
| LogRotation.NothingIsLostAtFirst | internal/logrouter/rotation.go:50-104 | up to maxBackups rotations lose nothing that was in the current file or has been written |
| LogRotation.RotatesIffFull | internal/logrouter/rotation.go:50-104 | by the size of the current file: a write that fits is appended and changes no backup; one that does not starts a new file, every other being one place up |
| LogRotation.SmallWritesShareAFile | internal/logrouter/rotation.go:50-61 | writes that fit together all go to the current file, and no backup changes |
| LogRotation.FilesAreWellFilled | internal/logrouter/rotation.go:50-104 | starting without backups there are never gaps nor more than maxBackups of them, and each backup and the file after it together exceed the limit |
| EventLog.JSONLWriter.EnsureFile | internal/events/jsonl_writer.go:115-152 | a new day flushes and leaves the old file and opens the day's with its true size |
| EventLog.JSONLWriter.Rotate | internal/events/jsonl_writer.go:161-209 | flushes into the day's file, shifts that day's backups, starts an empty file |
| EventLog.JSONLWriter.Write | internal/events/jsonl_writer.go:45-82 | refused after Close; otherwise the day's file is opened, rotated if the line would not fit, and the line buffered, whatever part the buffer spills |
| EventLog.JSONLWriter.Close | internal/events/jsonl_writer.go:95-112 | flushes and closes; closing again changes nothing |
| EventLog.RotationKeepsTheRest | internal/events/jsonl_writer.go:161-209 | a rotation loses at most the oldest bytes of that day and nothing of another |
| EventLog.WriteRecordsTheLine | internal/events/jsonl_writer.go:45-82 | the day's files and buffer get the whole line at the end and lose exactly the oldest file's bytes that a rotation drops; the line is whole in one file; other days lose nothing |
| EventLog.EveryDayHoldsASuffix | internal/events/jsonl_writer.go:45-209 | for every date, files and buffer together are a suffix of what was there followed by every line accepted for that date |
| EventLog.RecentLinesSurvive | internal/events/jsonl_writer.go:45-209 | every line accepted for a day since the rotation of that day before its last r is still there, for every r up to maxBackups |
| EventLog.NoLineIsLostAtFirst | internal/events/jsonl_writer.go:45-209 | up to maxBackups rotations of a day lose no line accepted for it |
| EventLog.WriteIsPlainWrite | internal/events/jsonl_writer.go:45-82 | a write to a day is a plain rotating write to the files of that day, the buffer included, and touches no other day |
| EventLog.EachDayIsARotatingWriter | internal/events/jsonl_writer.go:45-209 | over any operations the files of each day are what a plain rotating writer makes of the lines accepted for that day |
| EventLog.SmallLinesShareAFile | internal/events/jsonl_writer.go:45-152 | lines of a day that fit together all go to its current file, and no backup of it changes, however days alternate |
| EventLog.EveryDayIsWellFilled | internal/events/jsonl_writer.go:45-209 | no file of a day that had no backups is rotated away early |
| Metrics.PruneInPlace | internal/events/metrics.go:216-236 | the two-pointer filter keeps exactly the entries in the window, in order |
| Metrics.MetricsStore.HandleEvent | internal/events/metrics.go:75-198 | what each event adds to entries, counters and the agent's working time |
| Metrics.MetricsStore.CopyState | internal/events/metrics_query.go:57-79 | prunes, and copies exactly what is left |
| Metrics.ComputeUtilization | internal/events/metrics_query.go:187-209 | an agent is reported if and only if its working time is positive, with a share in (0, 1] of the retention |
| MetricsTheorems.PruningIsUnobservable | internal/events/metrics_query.go:47-79 | Prune and Snapshot calls put anywhere in a run on a monotone clock change no later snapshot, for events of any order |
| MetricsTheorems.UtilizationIsPerAgent | internal/events/metrics.go:137-208 | the working time kept for an agent depends on that agent's events alone |
| MetricsTheorems.WorkDurationIsClosedWork | internal/events/metrics.go:137-198 | for events in time order, workDuration is the number of instants in the agent's closed working intervals |
| MetricsTheorems.WorkDurationIsGaps | internal/events/metrics.go:137-198 | for events in any order, workDuration is the sum of the signed times from each start to the event handled next |
| MetricsTheorems.LateStopIsNegative | internal/events/metrics.go:137-198 | a stop handled after a later start makes it negative, and the agent is not reported |
| MetricsTheorems.ReportedIsOldPlusWindow | internal/events/metrics_query.go:187-209 | the working time reported is the work in the window plus all closed work before it, up to the retention |
| MetricsTheorems.ReportIsWindowWorkIff | internal/events/metrics_query.go:187-209 | it is the work in the window if and only if there is no older closed work or the whole window was worked |
| MetricsTheorems.OldWorkIsReported | internal/events/metrics_query.go:187-209 | an agent that worked once before the window and has been idle since is reported with that work |
| MetricsTheorems.LongRunFillsTheWindow | internal/events/metrics_query.go:187-209 | work begun before the window counts for the whole window, also with a negative working time |
| SnapshotLaws.CountersCountEvents | internal/events/metrics.go:75-198 | in every life of a store its counters count the completed and failed tasks and the restarts of the whole life |
| SnapshotLaws.SinceIsWindow | internal/events/metrics.go:216-236 | a window holds exactly the entries not older than the cutoff, each once and in order |
| SnapshotLaws.SnapshotShowsTheWindow | internal/events/metrics_query.go:47-79 | a snapshot shows exactly the entries of the whole life that lie in its window |
| HourlyBuckets.AggregateTasks | internal/events/metrics_query.go:102-148 | totals over all tasks, for each hour and location with a task exactly the bucket of its tasks, and the counts by role, epic and agent |
| HourlyBuckets.TallyCountsTasks | internal/events/metrics_query.go:128-136 | the counts have exactly the names that tasks carry, each with the number of its tasks |
| SnapshotLaws.HourIff | internal/events/metrics_query.go:107-110 | the hour of a time is the whole hour at or before it |
| SnapshotLaws.TotalsCountTasks | internal/events/metrics_query.go:102-148 | completed, failed, timed and last-hour tasks are counted, and durations and changed lines summed, over exactly the tasks meant |
| SnapshotLaws.BucketCountsTasks | internal/events/metrics_query.go:107-127 | a bucket counts the same of exactly the tasks that fall into its hour in its location |
| SnapshotLaws.TallyCounts | internal/events/metrics_query.go:128-136 | the counts by role, by epic and by agent are of the tasks with that role, epic or agent |
| HourlyBuckets.Rates | internal/events/metrics_query.go:139-145 | the error rate is within 0 and 100 percent and exact, the average is the duration over the timed tasks |
| HourlyBuckets.SortHourlyBuckets | internal/events/metrics_query.go:211-217 | the in-place swaps leave a permutation in ascending order of hours |
| HourlyBuckets.BuildHourlyBuckets | internal/events/metrics_query.go:159-174 | one bucket for each hour and location with a task, in ascending order of hours, whatever order the map is iterated in |
| HourlyBuckets.OneBucketAnHourIff | internal/events/metrics_query.go:102-174 | the hours of a snapshot are strictly ascending if and only if any two tasks of the same hour have the same location |
| HourlyBuckets.OneHourTwice | internal/events/metrics_query.go:107-157 | two tasks of one hour in two locations make two buckets of that hour with one task each |
| HourlyBuckets.BucketsAddUpToTotals | internal/events/metrics_query.go:102-174 | completions, failures and durations of the listed buckets add up to the snapshot's totals, hours listed more than once included, and every task is counted once |
| CachedValue.Value.Enter | internal/cli/serve_cache.go:33-57 | a fresh value is handed out; otherwise a caller joins the collection in flight or starts one on a new channel |
| CachedValue.Value.Refresh | internal/cli/serve_cache.go:70-73 | stores the value and its time and nothing else |
| CachedValue.Value.Finish | internal/cli/serve_cache.go:60-65 | the collection is over and its channel closed |
| CachedValueTheorems.OneCollectionAtATime | internal/cli/serve_cache.go:53-68 | in every interleaving at most one caller collects |
| CachedValueTheorems.EachChannelIsClosedOnce | internal/cli/serve_cache.go:54-65 | every channel made is closed exactly once, but for one that a caller still holds, panics included |
| CachedValueTheorems.AnswersAreHonest | internal/cli/serve_cache.go:32-76 | a fast value is younger than the ttl, a collector gets its own result, and every value is what its collection returned and stored, or the zero value when nothing was stored |
| CachedValueTheorems.PanicAnswersNothing | internal/cli/serve_cache.go:42-65 | a run in which a waiter gets the zero value from a first collection that panics |
| CachedValueTheorems.WaitersAreServedIff | internal/cli/serve_cache.go:42-73 | when a channel is closed, all its waiters are answered from that collection or a later one in every continuation if and only if it did not panic |
| CachedValueTheorems.WithoutPanicsAnswersAreResults | internal/cli/serve_cache.go:32-76 | without panics every value handed out is the stored result of a completed collection |
| CachedValueTheorems.CollectionsArePaced | internal/cli/serve_cache.go:35-57 | no collection starts within the ttl after an earlier result was stored |
| CachedValueTheorems.NoWaiterIsStuck | internal/cli/serve_cache.go:42-65 | a waiter's channel is closed, or one caller holds it whose next steps, at most three, close it whatever it collects |
| CachedValueTheorems.CallIsAnsweredAtOnceIff | internal/cli/serve_cache.go:33-57 | in every run a call gets the last result at once if and only if that is younger than the ttl; otherwise it waits if and only if somebody is collecting, and collects if nobody is |
| EnvExpander.FindClosingBrace | internal/cli/config_envsubst.go:64-77 | the first position that takes the brace depth to 0, or -1 when there is none |
| EnvExpanderLaws.ClosingBraceIsUnique | internal/cli/config_envsubst.go:64-77 | that description fits one position only, the one the search returns |
| EnvExpander.ExpandEnvVars | internal/cli/config_envsubst.go:18-60 | the loop computes the expansion, or its error with the position |
| EnvExpander.IndexFromIsFirst | internal/cli/config_envsubst.go:122-130 | the search that splits an expression finds the first occurrence |
| EnvExpanderLaws.ExpandConcatenates | internal/cli/config_envsubst.go:18-60 | if a expands and its scan does not end on a bare $, a + b expands exactly when b does, to the concatenation, and otherwise fails with b's error at its place |
| EnvExpanderLaws.ConcatenationIff | internal/cli/config_envsubst.go:36-41 | not ending on a bare $ is exactly the condition for this to hold for all b |
| EnvExpanderLaws.ErrorsAreFinal | internal/cli/config_envsubst.go:43-54 | an error other than an unclosed reference does not depend on what follows |
| EnvExpanderLaws.DoublingEscapes | internal/cli/config_envsubst.go:29-34 | text with every $ doubled expands to the text, whatever follows it |
| EnvExpanderLaws.DoublingRoundTrips | internal/cli/config_envsubst.go:13-34 | doubling every $ and expanding gives every string back |
| EnvExpanderLaws.ValuesAreNotRescanned | internal/cli/config_envsubst.go:51-56 | a substituted value is neither scanned again nor joined with its surroundings |
| EnvExpanderLaws.PlainReference | internal/cli/config_envsubst.go:81-111 | ${NAME} is the value, which must be set but may be empty |
| EnvExpanderLaws.DefaultReference | internal/cli/config_envsubst.go:81-111 | ${NAME:-word} is the value if that is not empty, otherwise the word |
| EnvExpanderLaws.MustHaveReference | internal/cli/config_envsubst.go:81-130 | ${NAME:?message} is the value or fails with the message, unless the message contains :-, in which case its tail becomes a default |
| EnvExpanderLaws.DemandIsMetIff | internal/cli/config_envsubst.go:12-16 | the documented meaning of ${NAME:?message} holds in every environment if and only if the message has no :- |
| EnvExpanderLaws.LoneDollarStays | internal/cli/config_envsubst.go:36-41 | a $ before any character but $ and {, or at the end, stands for itself |
| EnvExpanderLaws.PlainTextStays | internal/cli/config_envsubst.go:22-27 | text without $ is its own expansion |
| EnvExpanderLaws.UnclosedIsReported | internal/cli/config_envsubst.go:43-47 | a reference that is never closed is reported where it starts |
| EnvExpanderLaws.MalformedIsReported | internal/cli/config_envsubst.go:81-100 | an empty expression, a reference within a reference and an empty name are each reported where the reference starts |
| TaskRouter.CountSkillMatches | internal/cli/task_router.go:224-239 | the role's skills, with repetition, that are among the labels |
| TaskRouter.SkillMatchesCount | internal/cli/task_router.go:224-239 | the number is that of the places of the skill list whose skill is among the labels |
| TaskRouter.EligibleIff | internal/cli/taskfilter.go:14-106 | in terms of the fields: open, no epic, not blocked, within the cap, and with or without a design as the filter asks |
| TaskRouter.ScoreOfEligible | internal/cli/task_router.go:106-131 | the score of an eligible issue as a number, wherever the bonus does not wrap |
| TaskRouter.ScoreAgreesWithAvailability | internal/cli/taskfilter.go:87-106 | a score is positive if and only if the availability predicate of the filter holds and the priority is within the cap |
| TaskRouter.SelectBestTask | internal/cli/task_router.go:143-169 | nothing, or a match that no other match comes before |
| TaskRouter.MatchesAreTheEligible | internal/cli/task_router.go:144-150 | the matches are exactly the eligible issues with their scores |
| TaskRouter.ChoiceExistsIff | internal/cli/task_router.go:143-169 | a task is chosen if and only if some issue is eligible |
| TaskRouter.ScoreIsLexicographic | internal/cli/task_router.go:106-131 | away from the fallback the score orders by skill matches first and priority bonus second |
| TaskRouter.FallbackWinsIff | internal/cli/task_router.go:111-115 | a fallback is chosen if and only if every eligible task matches none of the role's skills |
| TaskRouter.RankingIsSimple | internal/cli/task_router.go:156-166 | score and tie-breaks together order tasks by skill matches, then priority number, then id, wherever the bonus does not wrap |
| TaskRouter.BonusIsClampedIff | internal/cli/task_router.go:122-129 | for which 64-bit priorities the bonus is 20 - 4 * priority clamped to [0, 20] |
| TaskRouter.WrappedBonusMisleads | internal/cli/task_router.go:122-129 | a priority for which it is not, with a higher bonus than an urgent task |
| TaskRouter.ChoiceIgnoresOrder | internal/cli/task_router.go:156-168 | with unique ids, permuting the issues does not change the choice |

## Left out

- Network and processes: Redis transport and its errors, git, bd, gh, tmux and agent subprocesses, HTTP and RPC. What they answer is an input.
- Parsing of JSON, YAML and error texts; the class of an exit is an input.
- Time between reading the clock and running a script; all machines read one monotone clock, and a key is gone from its deadline on.
- LeaseStore.KvClient.ClaimTask: does not model Redis and breaker errors, which change nothing that the model sees.
- StaleDetector.Detector.RunCycle: does not model failing calls to Redis after the election, after which the source skips a worker or gives up the cycle; LeaseCleanup covers cleanups cut short at any point.
- The unconditional DeleteTaskOwner, which no part of the protocol calls, and the reconciler that reopens orphans.
- StaleDetector.CycleReapsExactlyTheStale: speaks of a cycle that nothing interrupts; the interleaved cleanup is the subject of LeaseTheorems.
- Shutdown.SupervisorIsSoonGone: counts the exit of the subprocess as a step; that a signalled subprocess exits, and what the waits of stopAgent cost, is left out.
- What a subprocess does to its own worktree, such as checking out another branch.
- RestartPolicy.BackoffClosedForm: is stated for retries whose doubled initial fits 64 bits; DoublingIsExactUnlessWrapped and BackoffStaysUnderCap cover the others.
- I/O failures of the writers, and maxBackups = 0, for which the file is reopened for append but counted as empty.
- EventLog.JSONLWriter.Write: takes the part of the buffer that spills to the file as an input, as the buffered writer decides it.
- HourlyBuckets.Rates: gives the rate and average as real numbers, not as rounded floats; the restart counts of a snapshot are left out.
- Metrics.ComputeUtilization: gives the share as a real number, not as a rounded float.
- MetricsTheorems.WorkDurationIsClosedWork: is stated for one agent's events in time order, which the bus does not promise its listeners (emitter.go:36-39); WorkDurationIsGaps and LateStopIsNegative say what happens in other orders.
- CachedValueTheorems.AnswersAreHonest: bounds the age of a fast value only; a waiter's value may be older than the ttl when its collector is slow to close the channel.
- The walk over YAML nodes, and names that the operating system could not hold.
- Issue titles, assignees and the text of reasons, which no decision reads; role constraints merged from configuration and environment.
- TaskRouter.SelectBestTask: with ids that are not unique the choice among equals is left open, as the library's unstable sort leaves it.
- Lock files of agents, prompts, terminal output, dashboards and enumeration checks.
