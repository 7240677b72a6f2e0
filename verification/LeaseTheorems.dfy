/** What the lease protocol guarantees over every run: live workers, the history of leases, and who may be reaped. */
module LeaseTheorems {
  import opened Prelude
  import opened LeaseStore
  import opened LeaseProtocol

  // ----- Time -----

  lemma ClockStep(cfg: Config, s: System, e: Event)
    ensures s.tables.now <= Step(cfg, s, e).0.tables.now
  {
  }

  lemma {:induction false} ClockIsMonotone(run: Run, i: nat, j: nat)
    requires i <= j <= |run.events|
    ensures run.At(i).tables.now <= run.At(j).tables.now
    decreases j
  {
    if i < j {
      ClockIsMonotone(run, i, j - 1);
      ClockStep(run.cfg, run.At(j - 1), run.events[j - 1]);
    }
  }

  // ----- Single steps -----

  lemma ReplyNext(run: Run, k: nat, e: Event)
    requires k < |run.events| && run.events[k] == e
    ensures run.ReplyAt(k) == Step(run.cfg, run.At(k), e).1
  {
  }

  lemma AtNext(run: Run, k: nat, e: Event)
    requires k < |run.events| && run.events[k] == e
    ensures run.At(k + 1) == Step(run.cfg, run.At(k), e).0
  {
  }

  // ----- A live worker is safe -----

  /** A pending job that can take nothing more from w than its place in the sorted set. */
  predicate IsHarmless(phase: Phase)
  {
    match phase
    case Listed => false
    case Found(task) => task.Some? && !ValidId(task.value)
    case OwnerCleared => false
    case StateCleared => true
  }

  ghost predicate Harmless(s: System, w: Worker)
  {
    forall d: nat | (d, w) in s.jobs :: IsHarmless(s.jobs[(d, w)])
  }

  /** What holds of a punctual owner last heard of at `beat`. */
  ghost predicate Guarded(cfg: Config, s: System, w: Worker, t: Task, beat: int)
  {
    && ValidId(w)
    && OwnedBy(s, t, w) && s.tables.owner[t].deadline == beat + cfg.ttl
    && w in s.tables.session && s.tables.session[w].task == Some(t)
    && s.tables.session[w].deadline == beat + cfg.ttl
    && (w in s.tables.active ==> s.tables.active[w] == beat)
    && Harmless(s, w)
  }

  /** Between two systems no job on w has been added or has gone on. */
  ghost predicate NoNewJob(s: System, s': System, w: Worker)
  {
    forall d: nat :: PhaseOf(s', d, w) == None || PhaseOf(s', d, w) == PhaseOf(s, d, w)
  }

  lemma GuardedStep(cfg: Config, s: System, e: Event, w: Worker, t: Task, beat: int)
    requires Guarded(cfg, s, w, t, beat)
    requires ActsFor(e, w) ==> e == Heartbeat(w)
    requires s.tables.now - beat < cfg.threshold
    requires Step(cfg, s, e).0.tables.now - (if e == Heartbeat(w) then s.tables.now else beat) < cfg.ttl
    ensures Guarded(cfg, Step(cfg, s, e).0, w, t, if e == Heartbeat(w) then s.tables.now else beat)
    ensures NoNewJob(s, Step(cfg, s, e).0, w)
    ensures e == Heartbeat(w) ==> Step(cfg, s, e).1 == Done
    ensures e.Claim? && e.task == t ==> Step(cfg, s, e).1 in {HeldBy(w), InvalidId}
  {
    var s' := Step(cfg, s, e).0;
    forall d: nat
      ensures PhaseOf(s', d, w) == None || PhaseOf(s', d, w) == PhaseOf(s, d, w)
    {
      if (d, w) in s.jobs {
        assert IsHarmless(s.jobs[(d, w)]);
      }
    }
    HarmlessStays(s, s', w);
  }

  lemma HarmlessStays(s: System, s': System, w: Worker)
    requires Harmless(s, w) && NoNewJob(s, s', w)
    ensures Harmless(s', w)
  {
    forall d: nat | (d, w) in s'.jobs
      ensures IsHarmless(s'.jobs[(d, w)])
    {
      assert PhaseOf(s', d, w) == PhaseOf(s, d, w);
    }
  }

  lemma {:induction false} GuardedThroughout(run: Run, w: Worker, t: Task, k: nat)
    requires k <= |run.events|
    requires Guarded(run.cfg, run.start, w, t, run.start.tables.now)
    requires run.Punctual(w)
    ensures Guarded(run.cfg, run.At(k), w, t, run.LastBeat(w, k))
    ensures NoNewJob(run.start, run.At(k), w)
  {
    if k > 0 {
      GuardedThroughout(run, w, t, k - 1);
      assert run.At(k).tables.now - run.LastBeat(w, k) < Min(run.cfg.ttl, run.cfg.threshold);
      assert run.At(k - 1).tables.now - run.LastBeat(w, k - 1) < Min(run.cfg.ttl, run.cfg.threshold);
      GuardedStep(run.cfg, run.At(k - 1), run.events[k - 1], w, t, run.LastBeat(w, k - 1));
    }
  }

  /** w owns t throughout the run and all its beats succeed. */
  ghost predicate KeepsTask(run: Run, w: Worker, t: Task)
  {
    && (forall k | 0 <= k <= |run.events| :: OwnedBy(run.At(k), t, w))
    && (forall k | 0 <= k < |run.events| && run.events[k] == Heartbeat(w) :: run.ReplyAt(k) == Done)
  }

  /**
   A worker that claims a task while every detector is past its session, and then beats more often than
   the TTL and the stale threshold, keeps the task in every interleaving: it stays the owner, its beats
   succeed, rival claims are refused in its name, and no detector lists it again.
   */
  lemma LiveWorkerIsSafe(run: Run, before: System, w: Worker, t: Task, title: string, agentType: string)
    requires Step(run.cfg, before, Claim(w, t, title, agentType)) == (run.start, Done)
    requires Harmless(before, w)
    requires run.Punctual(w)
    ensures KeepsTask(run, w, t)
    ensures forall k | 0 <= k <= |run.events| :: NoNewJob(before, run.At(k), w)
    ensures forall k | 0 <= k < |run.events| ::
              run.events[k].Claim? && run.events[k].task == t ==> run.ReplyAt(k) in {HeldBy(w), InvalidId}
  {
    assert run.start.jobs == before.jobs;
    forall k: nat | k <= |run.events|
      ensures Guarded(run.cfg, run.At(k), w, t, run.LastBeat(w, k)) && NoNewJob(before, run.At(k), w)
    {
      GuardedThroughout(run, w, t, k);
      forall d: nat
        ensures PhaseOf(run.At(k), d, w) == None || PhaseOf(run.At(k), d, w) == PhaseOf(before, d, w)
      {
        assert PhaseOf(run.start, d, w) == PhaseOf(before, d, w);
      }
    }
    forall k: nat | k < |run.events|
      ensures run.events[k] == Heartbeat(w) ==> run.ReplyAt(k) == Done
      ensures run.events[k].Claim? && run.events[k].task == t ==> run.ReplyAt(k) in {HeldBy(w), InvalidId}
    {
      GuardedReply(run, w, t, k);
    }
  }

  lemma GuardedReply(run: Run, w: Worker, t: Task, k: nat)
    requires k < |run.events| && run.Punctual(w)
    requires Guarded(run.cfg, run.At(k), w, t, run.LastBeat(w, k))
    ensures run.events[k] == Heartbeat(w) ==> run.ReplyAt(k) == Done
    ensures run.events[k].Claim? && run.events[k].task == t ==> run.ReplyAt(k) in {HeldBy(w), InvalidId}
  {
    assert run.At(k + 1) == Step(run.cfg, run.At(k), run.events[k]).0;
    assert run.LastBeat(w, k + 1) == if run.events[k] == Heartbeat(w) then run.At(k).tables.now else run.LastBeat(w, k);
    GuardedStep(run.cfg, run.At(k), run.events[k], w, t, run.LastBeat(w, k));
  }

  // ----- When a pending job does harm -----

  /** What is left of a harmful job up to the session delete, and then a beat of the worker. */
  function HarmfulEvents(d: nat, w: Worker, phase: Phase): seq<Event>
  {
    match phase
    case Listed => [ReadState(d, w), ClearOwner(d, w), ClearState(d, w), Heartbeat(w)]
    case Found(_) => [ClearOwner(d, w), ClearState(d, w), Heartbeat(w)]
    case _ => [ClearState(d, w), Heartbeat(w)]
  }

  lemma {:induction false} AfterFirst(cfg: Config, s: System, events: seq<Event>, k: nat)
    requires 0 < k <= |events|
    ensures Run(cfg, s, events).At(k) == Run(cfg, Step(cfg, s, events[0]).0, events[1..]).At(k - 1)
  {
    if k > 1 {
      AfterFirst(cfg, s, events, k - 1);
    }
  }

  /** From the system s, the last of the events is answered with `reply`. */
  predicate EndsWith(cfg: Config, s: System, events: seq<Event>, reply: Reply)
  {
    events != [] && Run(cfg, s, events).ReplyAt(|events| - 1) == reply
  }

  lemma EndsWithRest(cfg: Config, s: System, events: seq<Event>, reply: Reply)
    requires |events| > 1 && EndsWith(cfg, Step(cfg, s, events[0]).0, events[1..], reply)
    ensures EndsWith(cfg, s, events, reply)
  {
    AfterFirst(cfg, s, events, |events| - 1);
  }

  lemma {:induction false} HarmfulJobEndsTheSession(cfg: Config, s: System, d: nat, w: Worker)
    requires ValidId(w) && (d, w) in s.jobs && !IsHarmless(s.jobs[(d, w)])
    requires SessionTask(s.tables, w).Some? ==> ValidId(SessionTask(s.tables, w).value)
    ensures EndsWith(cfg, s, HarmfulEvents(d, w, s.jobs[(d, w)]), NoActiveSession)
    decreases |HarmfulEvents(d, w, s.jobs[(d, w)])|
  {
    var events := HarmfulEvents(d, w, s.jobs[(d, w)]);
    var s' := Step(cfg, s, events[0]).0;
    if s.jobs[(d, w)] == OwnerCleared {
      assert events[1..] == [Heartbeat(w)] && EndsWith(cfg, s', [Heartbeat(w)], NoActiveSession);
    } else {
      HarmfulJobEndsTheSession(cfg, s', d, w);
      assert events[1..] == HarmfulEvents(d, w, s'.jobs[(d, w)]);
    }
    EndsWithRest(cfg, s, events, NoActiveSession);
  }

  lemma {:induction false} WithoutTicks(run: Run, w: Worker, k: nat)
    requires k <= |run.events| && forall i | 0 <= i < |run.events| :: !run.events[i].Tick?
    ensures run.At(k).tables.now == run.LastBeat(w, k) == run.start.tables.now
  {
    if k > 0 {
      WithoutTicks(run, w, k - 1);
      NoTickNoTime(run.cfg, run.At(k - 1), run.events[k - 1]);
    }
  }

  lemma NoTickNoTime(cfg: Config, s: System, e: Event)
    requires !e.Tick?
    ensures Step(cfg, s, e).0.tables.now == s.tables.now
  {
  }

  lemma HarmfulRunIsPunctual(cfg: Config, s: System, d: nat, w: Worker, phase: Phase)
    requires cfg.ttl > 0 && cfg.threshold > 0
    ensures Run(cfg, s, HarmfulEvents(d, w, phase)).Punctual(w)
  {
    var run := Run(cfg, s, HarmfulEvents(d, w, phase));
    forall k | 0 <= k <= |run.events|
      ensures run.At(k).tables.now - run.LastBeat(w, k) < Min(cfg.ttl, cfg.threshold)
    {
      WithoutTicks(run, w, k);
    }
  }

  /**
   Exactly when a claim is safe from the cleanups already under way: the worker keeps the task and all
   its beats succeed in every punctual run if and only if every job pending on it is past its session
   delete (or will give up on a task name that the client rejects). Otherwise the job's next steps and
   one beat, with no time passing, end the session.
   */
  lemma ClaimIsSafeIff(cfg: Config, before: System, after: System, w: Worker, t: Task, title: string, agentType: string)
    requires cfg.ttl > 0 && cfg.threshold > 0
    requires Step(cfg, before, Claim(w, t, title, agentType)) == (after, Done)
    ensures (forall events | Run(cfg, after, events).Punctual(w) :: KeepsTask(Run(cfg, after, events), w, t))
            <==> Harmless(before, w)
  {
    if Harmless(before, w) {
      forall events | Run(cfg, after, events).Punctual(w)
        ensures KeepsTask(Run(cfg, after, events), w, t)
      {
        LiveWorkerIsSafe(Run(cfg, after, events), before, w, t, title, agentType);
      }
    } else {
      var d: nat :| (d, w) in before.jobs && !IsHarmless(before.jobs[(d, w)]);
      var events := HarmfulEvents(d, w, after.jobs[(d, w)]);
      HarmfulRunIsPunctual(cfg, after, d, w, after.jobs[(d, w)]);
      HarmfulJobEndsTheSession(cfg, after, d, w);
      assert events[|events| - 1] == Heartbeat(w);
      assert !KeepsTask(Run(cfg, after, events), w, t);
    }
  }

  /**
   A run that comes to this: whatever the TTL and the threshold, a stale worker that claims a task just
   after being listed loses it to the pending cleanup, with no time passing and no call of its own
   refused.
   */
  lemma RevivedWorkerLosesItsLease(run: Run, k: nat, d: nat, w: Worker, t: Task, title: string, agentType: string)
    requires k + 4 <= |run.events| && ValidId(w) && ValidId(t)
    requires run.events[k..k + 4] == [Scan(d), Claim(w, t, title, agentType), ReadState(d, w), ClearOwner(d, w)]
    requires forall job | job in run.At(k).jobs :: job.0 != d
    requires w in StaleAt(run.cfg, run.At(k).tables)
    requires t in run.At(k).tables.owner ==> run.At(k).tables.owner[t].worker == w
    ensures run.ReplyAt(k + 1) == Done && OwnedBy(run.At(k + 2), t, w)
    ensures t !in run.At(k + 4).tables.owner && run.At(k + 4).tables.now == run.At(k).tables.now
  {
    RevivalStates(run, k, d, w, t, title, agentType);
    RevivalSequence(run.cfg, run.At(k), run.At(k + 1), run.At(k + 2), run.At(k + 3), d, w, t, title, agentType);
  }

  lemma RevivalStates(run: Run, k: nat, d: nat, w: Worker, t: Task, title: string, agentType: string)
    requires k + 4 <= |run.events|
    requires run.events[k..k + 4] == [Scan(d), Claim(w, t, title, agentType), ReadState(d, w), ClearOwner(d, w)]
    ensures run.At(k + 1) == Scanned(run.cfg, run.At(k), d).0
    ensures run.At(k + 2) == Claimed(run.cfg, run.At(k + 1), w, t, title, agentType).0
    ensures run.ReplyAt(k + 1) == Claimed(run.cfg, run.At(k + 1), w, t, title, agentType).1
    ensures run.At(k + 3) == StateRead(run.At(k + 2), d, w).0
    ensures run.At(k + 4) == OwnerStep(run.At(k + 3), d, w).0
  {
    var events := run.events[k..k + 4];
    AtNext(run, k, events[0]);
    AtNext(run, k + 1, events[1]);
    AtNext(run, k + 2, events[2]);
    AtNext(run, k + 3, events[3]);
  }

  lemma RevivalSequence(cfg: Config, s0: System, s1: System, s2: System, s3: System, d: nat, w: Worker, t: Task,
        title: string, agentType: string)
    requires ValidId(w) && ValidId(t)
    requires s1 == Scanned(cfg, s0, d).0 && s2 == Claimed(cfg, s1, w, t, title, agentType).0
             && s3 == StateRead(s2, d, w).0
    requires forall job | job in s0.jobs :: job.0 != d
    requires w in StaleAt(cfg, s0.tables)
    requires t in s0.tables.owner ==> s0.tables.owner[t].worker == w
    ensures Claimed(cfg, s1, w, t, title, agentType).1 == Done && OwnedBy(s2, t, w)
    ensures t !in OwnerStep(s3, d, w).0.tables.owner && OwnerStep(s3, d, w).0.tables.now == s0.tables.now
  {
    assert PhaseOf(s1, d, w) == Some(Listed) by {
      assert (d, w) in ScanJobs(cfg, s0, d);
    }
    assert PhaseOf(s3, d, w) == Some(Found(Some(t)));
  }

  /** A claim, a threshold of silence, and a second claim just after a scan. */
  function ComebackEvents(d: nat, w: Worker, t: Task, title: string, agentType: string, later: int): seq<Event>
  {
    [Claim(w, t, title, agentType), Tick(later), Scan(d), Claim(w, t, title, agentType),
      ReadState(d, w), ClearOwner(d, w)]
  }

  /** Such a run from empty tables, for any TTL and threshold: the second claim is granted, and lost at once. */
  lemma ComebackLosesItsLease(run: Run, d: nat, w: Worker, t: Task, title: string, agentType: string)
    requires run.cfg.threshold >= 0 && ValidId(w) && ValidId(t) && run.start == Empty(run.start.tables.now)
    requires run.events == ComebackEvents(d, w, t, title, agentType, run.start.tables.now + run.cfg.threshold)
    ensures run.ReplyAt(3) == Done && OwnedBy(run.At(4), t, w)
    ensures t !in run.At(6).tables.owner && run.At(6).tables.now == run.At(2).tables.now
  {
    AtNext(run, 0, run.events[0]);
    AtNext(run, 1, run.events[1]);
    ComebackIsStale(run.cfg, run.start, run.At(1), run.At(2), w, t, title, agentType);
    RevivedWorkerLosesItsLease(run, 2, d, w, t, title, agentType);
  }

  lemma ComebackIsStale(cfg: Config, s0: System, s1: System, s2: System, w: Worker, t: Task, title: string,
        agentType: string)
    requires cfg.threshold >= 0 && ValidId(w) && ValidId(t) && s0 == Empty(s0.tables.now)
    requires s1 == Claimed(cfg, s0, w, t, title, agentType).0
    requires s2 == Ticked(s1, s0.tables.now + cfg.threshold).0
    ensures s2.jobs == map[] && w in StaleAt(cfg, s2.tables)
    ensures t in s2.tables.owner ==> s2.tables.owner[t].worker == w
  {
  }

  // ----- Lease history -----

  /** What one step can do to the lease of t. */
  lemma LeaseStep(run: Run, k: nat, t: Task)
    requires k < |run.events|
    ensures run.Grants(k, t) ==> OwnedBy(run.At(k + 1), t, run.events[k].worker)
    ensures run.Grants(k, t) && t in run.At(k).tables.owner ==> OwnedBy(run.At(k), t, run.events[k].worker)
    ensures run.Completes(k, t) ==>
              OwnedBy(run.At(k), t, run.events[k].worker) && t !in run.At(k + 1).tables.owner
    ensures t in run.At(k + 1).tables.owner && !run.Grants(k, t) ==>
              && !run.Completes(k, t) && !run.Reaps(k, t)
              && OwnedBy(run.At(k), t, run.At(k + 1).tables.owner[t].worker)
  {
  }

  /** The owner is always the latest worker granted the task, with no completion or reaping since. */
  lemma {:induction false} OwnerIsLatestClaimer(run: Run, k: nat, t: Task)
    requires k <= |run.events| && run.FromEmpty() && t in run.At(k).tables.owner
    ensures exists c :: run.LatestGrant(c, k, run.At(k).tables.owner[t].worker, t)
  {
    LeaseStep(run, k - 1, t);
    var w := run.At(k).tables.owner[t].worker;
    if run.Grants(k - 1, t) {
      assert run.LatestGrant(k - 1, k, w, t);
    } else {
      OwnerIsLatestClaimer(run, k - 1, t);
      var c :| run.LatestGrant(c, k - 1, w, t);
      assert run.LatestGrant(c, k, w, t);
    }
  }

  /** A successful completion is by the latest claimer, and nothing has released the task in between. */
  lemma CompletionIsByLatestClaimer(run: Run, k: nat, t: Task)
    requires k < |run.events| && run.FromEmpty() && run.Completes(k, t)
    ensures exists c :: run.LatestGrant(c, k, run.events[k].worker, t)
  {
    LeaseStep(run, k, t);
    OwnerIsLatestClaimer(run, k, t);
  }

  /** A task changes hands only through a moment when nobody owns it. */
  lemma {:induction false} HandoverIsThroughUnowned(run: Run, i: nat, j: nat, t: Task)
    requires i <= j <= |run.events|
    requires t in run.At(i).tables.owner && t in run.At(j).tables.owner
    requires run.At(i).tables.owner[t].worker != run.At(j).tables.owner[t].worker
    ensures exists m: nat :: i < m < j && t !in run.At(m).tables.owner
    decreases j
  {
    LeaseStep(run, j - 1, t);
    if t in run.At(j - 1).tables.owner {
      HandoverIsThroughUnowned(run, i, j - 1, t);
    }
  }

  /**
   Counting leases: successful completions never outnumber successful claims, and a held lease is one
   not yet used up.
   */
  lemma {:induction false} CompletionsNeverOutnumberClaims(run: Run, k: nat, t: Task)
    requires k <= |run.events| && run.FromEmpty()
    ensures run.CompleteCount(k, t) + (if t in run.At(k).tables.owner then 1 else 0) <= run.ClaimCount(k, t)
  {
    if k > 0 {
      CompletionsNeverOutnumberClaims(run, k - 1, t);
      LeaseStep(run, k - 1, t);
    }
  }

  // ----- Reaping -----

  /**
   From any system whatever, one step takes something away from `w` only by w's own completion, by
   the deadline, or by a detector's job on w itself. A cleanup of another worker takes nothing of w's.
   */
  lemma LossHasACause(cfg: Config, s: System, e: Event, w: Worker, t: Task)
    ensures OwnedBy(s, t, w) ==>
              (!OwnedBy(Step(cfg, s, e).0, t, w) <==>
               || (e == Complete(w, t) && Step(cfg, s, e).1 == Done)
               || (e.Tick? && s.tables.now <= e.to && s.tables.owner[t].deadline <= e.to)
               || (e.ClearOwner? && e.worker == w && ValidId(w) && ValidId(t)
                   && PhaseOf(s, e.detector, w) == Some(Found(Some(t)))))
    ensures w in s.tables.session ==>
              (w !in Step(cfg, s, e).0.tables.session <==>
               || (e.Tick? && s.tables.now <= e.to && s.tables.session[w].deadline <= e.to)
               || (e.ClearState? && e.worker == w && PhaseOf(s, e.detector, w) == Some(OwnerCleared)))
    ensures w in s.tables.active ==>
              (w !in Step(cfg, s, e).0.tables.active <==>
               e.ClearActive? && e.worker == w && PhaseOf(s, e.detector, w) == Some(StateCleared))
  {
  }

  /** The job of detector d on w that is pending after k events was made by event m, a scan that found w stale. */
  ghost predicate MadeBy(run: Run, m: nat, k: nat, d: nat, w: Worker)
    requires k <= |run.events|
  {
    && m < k && run.events[m] == Scan(d) && w in StaleAt(run.cfg, run.At(m).tables)
    && (d, w) !in run.At(m).jobs && forall j | m < j <= k :: (d, w) in run.At(j).jobs
  }

  /**
   Every pending job was made by a scan of the same detector that found w stale, and has been pending
   without a break since.
   */
  lemma {:induction false} JobComesFromStaleScan(run: Run, k: nat, d: nat, w: Worker)
    requires k <= |run.events| && run.start.jobs == map[] && (d, w) in run.At(k).jobs
    ensures exists m: nat :: MadeBy(run, m, k, d, w)
  {
    if (d, w) in run.At(k - 1).jobs {
      JobComesFromStaleScan(run, k - 1, d, w);
      var m: nat :| MadeBy(run, m, k - 1, d, w);
      assert MadeBy(run, m, k, d, w);
    } else {
      assert MadeBy(run, k - 1, k, d, w);
    }
  }

  lemma ScoreStep(cfg: Config, s: System, e: Event, w: Worker)
    requires w in Step(cfg, s, e).0.tables.active
    ensures ActsFor(e, w) && Step(cfg, s, e).1 == Done ==> Step(cfg, s, e).0.tables.active[w] == s.tables.now
    ensures !(ActsFor(e, w) && Step(cfg, s, e).1 == Done) ==>
              w in s.tables.active && Step(cfg, s, e).0.tables.active[w] == s.tables.active[w]
  {
  }

  /** The score of an active worker is no earlier than any successful call it has made. */
  lemma {:induction false} ScoreIsLastContact(run: Run, k: nat, w: Worker)
    requires k <= |run.events| && run.FromEmpty() && w in run.At(k).tables.active
    ensures forall i: nat | i < k && run.Contact(i, w) :: run.At(i).tables.now <= run.At(k).tables.active[w]
  {
    if k > 0 {
      ScoreStep(run.cfg, run.At(k - 1), run.events[k - 1], w);
      if run.Contact(k - 1, w) {
        forall i: nat | i < k && run.Contact(i, w)
          ensures run.At(i).tables.now <= run.At(k).tables.active[w]
        {
          ClockIsMonotone(run, i, k - 1);
        }
      } else {
        ScoreIsLastContact(run, k - 1, w);
      }
    }
  }

  /** w had made no successful call for the stale threshold when event m came. */
  ghost predicate SilentBefore(run: Run, m: nat, w: Worker)
    requires m < |run.events|
  {
    forall i: nat | i < m && run.Contact(i, w) :: run.At(i).tables.now <= run.At(m).tables.now - run.cfg.threshold
  }

  /**
   Whatever falls between a scan and its deletes: a delete on w takes effect only for a job that is still
   the one its scan made, and w had made no successful call for the stale threshold before that scan.
   */
  lemma ReapFollowsSilence(run: Run, k: nat, d: nat, w: Worker)
    requires k < |run.events| && run.FromEmpty()
    requires run.events[k] in {ClearOwner(d, w), ClearState(d, w), ClearActive(d, w)}
    requires run.ReplyAt(k) == Done
    ensures exists m: nat :: MadeBy(run, m, k, d, w) && SilentBefore(run, m, w)
  {
    JobComesFromStaleScan(run, k, d, w);
    var m: nat :| MadeBy(run, m, k, d, w);
    ScoreIsLastContact(run, m, w);
    assert SilentBefore(run, m, w);
  }
}
