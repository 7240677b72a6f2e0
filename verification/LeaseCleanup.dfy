/** What becomes of the leases, sessions and entries of a worker that falls silent, in every run. */
module LeaseCleanup {
  import opened Prelude
  import opened LeaseStore
  import opened LeaseProtocol
  import opened LeaseTheorems

  // ----- A lease never outlives its session -----

  ghost predicate NoTrace(s: System, w: Worker)
  {
    && (forall t :: !OwnedBy(s, t, w))
    && w !in s.tables.session && w !in s.tables.active
  }

  ghost predicate Covered(cfg: Config, s: System, w: Worker)
  {
    forall t | OwnedBy(s, t, w) ::
      && w in s.tables.session && s.tables.owner[t].deadline <= s.tables.session[w].deadline
      && w in s.tables.active && s.tables.owner[t].deadline - cfg.ttl <= s.tables.active[w]
      && s.tables.owner[t].deadline <= s.tables.now + cfg.ttl
  }

  predicate Unregisters(e: Event, w: Worker) { (e.ClearState? || e.ClearActive?) && e.worker == w }

  lemma CoveredStep(cfg: Config, s: System, e: Event, w: Worker)
    requires Covered(cfg, s, w) && !Unregisters(e, w)
    ensures Covered(cfg, Step(cfg, s, e).0, w)
  {
    ClockStep(cfg, s, e);
  }

  /**
   From any system with no trace of w, while no detector unregisters w: each lease of w is covered by w's
   session and by its place in the sorted set.
   */
  lemma {:induction false} LeaseNeverOutlivesSession(run: Run, w: Worker, k: nat)
    requires k <= |run.events| && NoTrace(run.start, w) && run.NeverUnregistered(w)
    ensures Covered(run.cfg, run.At(k), w)
  {
    if k > 0 {
      LeaseNeverOutlivesSession(run, w, k - 1);
      CoveredStep(run.cfg, run.At(k - 1), run.events[k - 1], w);
    }
  }

  /** w claims a task only when it holds no other. */
  ghost predicate OneTaskAtATime(run: Run, w: Worker)
  {
    forall k, t, u | 0 <= k < |run.events| && run.Grants(k, t) && run.events[k].worker == w
      && OwnedBy(run.At(k), u, w) ::
      t == u
  }

  lemma NamingStep(cfg: Config, s: System, e: Event, w: Worker, t: Task)
    requires Covered(cfg, s, w) && !Unregisters(e, w)
    requires forall u | OwnedBy(s, u, w) :: SessionTask(s.tables, w) == Some(u)
    requires e.Claim? && e.worker == w && Step(cfg, s, e).1 == Done ==> forall u | OwnedBy(s, u, w) :: u == e.task
    ensures OwnedBy(Step(cfg, s, e).0, t, w) ==> SessionTask(Step(cfg, s, e).0.tables, w) == Some(t)
  {
    if !(e.Claim? && e.worker == w) {
      assert OwnedBy(Step(cfg, s, e).0, t, w) ==> OwnedBy(s, t, w);
      if e.Complete? && e.worker == w && Step(cfg, s, e).1 == Done {
        assert OwnedBy(s, e.task, w);
      }
    }
  }

  lemma {:induction false} SessionNamesTheLease(run: Run, w: Worker, k: nat, t: Task)
    requires k <= |run.events| && NoTrace(run.start, w) && run.NeverUnregistered(w) && OneTaskAtATime(run, w)
    requires OwnedBy(run.At(k), t, w)
    ensures SessionTask(run.At(k).tables, w) == Some(t)
  {
    var s, e := run.At(k - 1), run.events[k - 1];
    LeaseNeverOutlivesSession(run, w, k - 1);
    forall u | OwnedBy(s, u, w)
      ensures SessionTask(s.tables, w) == Some(u)
      ensures e.Claim? && e.worker == w && run.ReplyAt(k - 1) == Done ==> u == e.task
    {
      SessionNamesTheLease(run, w, k - 1, u);
      assert e.Claim? && run.ReplyAt(k - 1) == Done ==> run.Grants(k - 1, e.task);
    }
    NamingStep(run.cfg, s, e, w, t);
  }

  // ----- A dead worker is cleaned up -----

  /** What is left of w can be found again by a scan, at whatever point every cleanup of w has got to. */
  ghost predicate Accounted(s: System, w: Worker)
  {
    && ValidId(w)
    && (forall t | OwnedBy(s, t, w) ::
          && w in s.tables.session && s.tables.session[w].task == Some(t)
          && s.tables.owner[t].deadline <= s.tables.session[w].deadline)
    && (SessionTask(s.tables, w).Some? ==> ValidId(SessionTask(s.tables, w).value))
    && (w in s.tables.session ==> w in s.tables.active)
    && forall d: nat | (d, w) in s.jobs :: JobConsistent(s, w, s.jobs[(d, w)])
  }

  ghost predicate JobConsistent(s: System, w: Worker, phase: Phase)
  {
    match phase
    case Listed => true
    case Found(task) => forall t | OwnedBy(s, t, w) :: task == Some(t)
    case OwnerCleared => forall t :: !OwnedBy(s, t, w)
    case StateCleared => w !in s.tables.session && forall t :: !OwnedBy(s, t, w)
  }

  /** Nothing about w differs: leases, session, score, and the jobs on w. */
  ghost predicate SameFor(s: System, s': System, w: Worker)
  {
    && (forall t :: OwnedBy(s, t, w) <==> OwnedBy(s', t, w))
    && (forall t | OwnedBy(s, t, w) :: s'.tables.owner[t] == s.tables.owner[t])
    && (w in s.tables.session <==> w in s'.tables.session)
    && (w in s.tables.session ==> s'.tables.session[w] == s.tables.session[w])
    && (w in s.tables.active <==> w in s'.tables.active)
    && (w in s.tables.active ==> s'.tables.active[w] == s.tables.active[w])
    && forall d: nat :: PhaseOf(s', d, w) == PhaseOf(s, d, w)
  }

  predicate IsJobStep(e: Event)
  {
    e.ReadState? || e.ClearOwner? || e.ClearState? || e.ClearActive? || e.Abandon?
  }

  /** Other workers' calls, and everything detectors do about other workers, leave w exactly as it was. */
  lemma OthersLeaveWorkerAlone(cfg: Config, s: System, e: Event, w: Worker)
    requires !ActsFor(e, w) && !e.Tick? && !e.Scan? && !(IsJobStep(e) && e.worker == w)
    ensures SameFor(s, Step(cfg, s, e).0, w)
  {
    if e.Claim? || e.Heartbeat? || e.Complete? {
      assert Step(cfg, s, e).0.jobs == s.jobs;
    }
  }

  lemma SameForKeepsAccounted(s: System, s': System, w: Worker)
    requires SameFor(s, s', w)
    requires Accounted(s, w)
    ensures Accounted(s', w) && (NoTrace(s, w) ==> NoTrace(s', w))
  {
    forall d: nat | (d, w) in s'.jobs
      ensures JobConsistent(s', w, s'.jobs[(d, w)])
    {
      assert PhaseOf(s', d, w) == PhaseOf(s, d, w);
      assert JobConsistent(s, w, s.jobs[(d, w)]);
    }
  }

  lemma JobOnlyTakesAway(cfg: Config, s: System, e: Event, w: Worker)
    requires IsJobStep(e) && e.worker == w
    ensures var s' := Step(cfg, s, e).0;
            && (forall t | OwnedBy(s', t, w) :: OwnedBy(s, t, w) && s'.tables.owner[t] == s.tables.owner[t])
            && (w in s'.tables.session ==> w in s.tables.session && s'.tables.session[w] == s.tables.session[w])
            && (w in s'.tables.active ==> w in s.tables.active)
            && forall d: nat | (d, w) in s'.jobs :: (d, w) in s.jobs
  {
  }

  lemma JobOnWorkerKeepsAccounted(cfg: Config, s: System, e: Event, w: Worker)
    requires Accounted(s, w) && IsJobStep(e) && e.worker == w
    ensures Accounted(Step(cfg, s, e).0, w)
  {
    var s' := Step(cfg, s, e).0;
    JobOnlyTakesAway(cfg, s, e, w);
    if (e.detector, w) in s.jobs {
      assert JobConsistent(s, w, s.jobs[(e.detector, w)]);
    }
    forall d: nat | (d, w) in s'.jobs
      ensures JobConsistent(s', w, s'.jobs[(d, w)])
    {
      JobStaysConsistent(cfg, s, e, w, d);
    }
  }

  lemma JobStaysConsistent(cfg: Config, s: System, e: Event, w: Worker, d: nat)
    requires Accounted(s, w) && IsJobStep(e) && e.worker == w && (d, w) in Step(cfg, s, e).0.jobs
    ensures JobConsistent(Step(cfg, s, e).0, w, Step(cfg, s, e).0.jobs[(d, w)])
  {
    JobOnlyTakesAway(cfg, s, e, w);
    assert JobConsistent(s, w, s.jobs[(d, w)]);
  }

  lemma JobOnWorkerClears(cfg: Config, s: System, e: Event, w: Worker)
    requires Accounted(s, w) && IsJobStep(e) && e.worker == w
    ensures NoTrace(s, w) ==> NoTrace(Step(cfg, s, e).0, w)
    ensures e.ClearActive? && Step(cfg, s, e).1 == Done ==> NoTrace(Step(cfg, s, e).0, w)
  {
    JobOnlyTakesAway(cfg, s, e, w);
    if (e.detector, w) in s.jobs {
      assert JobConsistent(s, w, s.jobs[(e.detector, w)]);
    }
  }

  lemma TickOrScanKeepsAccounted(cfg: Config, s: System, e: Event, w: Worker)
    requires Accounted(s, w) && (e.Tick? || e.Scan?)
    ensures Accounted(Step(cfg, s, e).0, w)
    ensures NoTrace(s, w) ==> NoTrace(Step(cfg, s, e).0, w)
  {
    var s' := Step(cfg, s, e).0;
    assert forall t | OwnedBy(s', t, w) :: OwnedBy(s, t, w);
    forall d: nat | (d, w) in s'.jobs
      ensures JobConsistent(s', w, s'.jobs[(d, w)])
    {
      if (d, w) in s.jobs {
        assert JobConsistent(s, w, s.jobs[(d, w)]);
      }
    }
  }

  lemma QuietStep(cfg: Config, s: System, e: Event, w: Worker)
    requires Accounted(s, w) && !ActsFor(e, w)
    ensures Accounted(Step(cfg, s, e).0, w)
    ensures NoTrace(s, w) ==> NoTrace(Step(cfg, s, e).0, w)
    ensures e.ClearActive? && e.worker == w && Step(cfg, s, e).1 == Done ==> NoTrace(Step(cfg, s, e).0, w)
  {
    if e.Tick? || e.Scan? {
      TickOrScanKeepsAccounted(cfg, s, e, w);
    } else if IsJobStep(e) && e.worker == w {
      JobOnWorkerKeepsAccounted(cfg, s, e, w);
      JobOnWorkerClears(cfg, s, e, w);
    } else {
      OthersLeaveWorkerAlone(cfg, s, e, w);
      SameForKeepsAccounted(s, Step(cfg, s, e).0, w);
    }
  }

  /**
   Starting anywhere without a trace, be it at first or after a cleanup: a worker that claims one task at
   a time is accounted for exactly when no pending job has read a task that it no longer holds.
   */
  lemma OneTaskWorkerIsAccounted(run: Run, w: Worker, k: nat)
    requires k <= |run.events| && NoTrace(run.start, w) && run.NeverUnregistered(w) && OneTaskAtATime(run, w)
    requires ValidId(w)
    ensures Accounted(run.At(k), w) <==>
            forall d: nat | (d, w) in run.At(k).jobs :: JobConsistent(run.At(k), w, run.At(k).jobs[(d, w)])
  {
    LeaseNeverOutlivesSession(run, w, k);
    SessionIsRegistered(run, w, k);
    forall t | OwnedBy(run.At(k), t, w)
      ensures run.At(k).tables.session[w].task == Some(t)
    {
      SessionNamesTheLease(run, w, k, t);
    }
  }

  ghost predicate Registered(s: System, w: Worker)
  {
    && (w in s.tables.session ==> w in s.tables.active)
    && (SessionTask(s.tables, w).Some? ==> ValidId(SessionTask(s.tables, w).value))
  }

  lemma RegisteredStep(cfg: Config, s: System, e: Event, w: Worker)
    requires Registered(s, w) && !Unregisters(e, w)
    ensures Registered(Step(cfg, s, e).0, w)
  {
  }

  lemma {:induction false} SessionIsRegistered(run: Run, w: Worker, k: nat)
    requires k <= |run.events| && NoTrace(run.start, w) && run.NeverUnregistered(w)
    ensures Registered(run.At(k), w)
  {
    if k > 0 {
      SessionIsRegistered(run, w, k - 1);
      RegisteredStep(run.cfg, run.At(k - 1), run.events[k - 1], w);
    }
  }

  /** Once w is silent, every step of everyone else, and a cleanup cut short anywhere, keeps it accounted for. */
  lemma {:induction false} DeadWorkerStaysAccounted(run: Run, w: Worker, k: nat)
    requires k <= |run.events| && Accounted(run.start, w) && run.Quiet(w)
    ensures Accounted(run.At(k), w)
  {
    if k > 0 {
      DeadWorkerStaysAccounted(run, w, k - 1);
      QuietStep(run.cfg, run.At(k - 1), run.events[k - 1], w);
    }
  }

  /** When some cleanup of a dead worker reaches its last delete, nothing is left of the worker, then or later. */
  lemma FinishedCleanupLeavesNoTrace(run: Run, w: Worker, i: nat, k: nat)
    requires i < k <= |run.events| && Accounted(run.start, w) && run.Quiet(w)
    requires run.events[i].ClearActive? && run.events[i].worker == w && run.ReplyAt(i) == Done
    ensures NoTrace(run.At(k), w)
  {
    DeadWorkerStaysAccounted(run, w, i);
    QuietStep(run.cfg, run.At(i), run.events[i], w);
    assert NoTrace(run.At(i + 1), w);
    NoTraceIsFinal(run, w, i + 1, k);
  }

  function CleanupEvents(d: nat, w: Worker): seq<Event>
  {
    [Scan(d), ReadState(d, w), ClearOwner(d, w), ClearState(d, w), ClearActive(d, w)]
  }

  /**
   However the cleanups of a dead worker were cut short, a detector with nothing pending that scans
   once the worker is stale, and cleans it up, leaves no lease, no session and no entry of it. (A
   worker the scan does not list because it is no longer in the sorted set has no trace already.)
   */
  lemma RerunCleansUpDeadWorker(run: Run, w: Worker, k: nat, d: nat)
    requires k + 5 <= |run.events| && Accounted(run.start, w) && run.Quiet(w)
    requires run.events[k..k + 5] == CleanupEvents(d, w)
    requires forall job | job in run.At(k).jobs :: job.0 != d
    requires w in run.At(k).tables.active ==> w in StaleAt(run.cfg, run.At(k).tables)
    ensures NoTrace(run.At(k + 5), w)
  {
    DeadWorkerStaysAccounted(run, w, k);
    if w in run.At(k).tables.active {
      CleanupSteps(run, w, k, d);
      FinishedCleanupLeavesNoTrace(run, w, k + 4, k + 5);
    } else {
      NoTraceIsFinal(run, w, k, k + 5);
    }
  }

  lemma CleanupSteps(run: Run, w: Worker, k: nat, d: nat)
    requires k + 5 <= |run.events| && run.events[k..k + 5] == CleanupEvents(d, w)
    requires Accounted(run.At(k), w)
    requires forall job | job in run.At(k).jobs :: job.0 != d
    requires w in StaleAt(run.cfg, run.At(k).tables)
    ensures run.events[k + 4] == ClearActive(d, w) && run.ReplyAt(k + 4) == Done
  {
    CleanupStates(run, w, k, d);
    CleanupSequence(run.cfg, run.At(k), run.At(k + 1), run.At(k + 2), run.At(k + 3), run.At(k + 4), d, w);
  }

  lemma CleanupStates(run: Run, w: Worker, k: nat, d: nat)
    requires k + 5 <= |run.events| && run.events[k..k + 5] == CleanupEvents(d, w)
    ensures run.At(k + 1) == Scanned(run.cfg, run.At(k), d).0
    ensures run.At(k + 2) == StateRead(run.At(k + 1), d, w).0
    ensures run.At(k + 3) == OwnerStep(run.At(k + 2), d, w).0
    ensures run.At(k + 4) == StateStep(run.At(k + 3), d, w).0
    ensures run.events[k + 4] == ClearActive(d, w)
    ensures run.ReplyAt(k + 4) == ActiveStep(run.At(k + 4), d, w).1
  {
    var events := run.events[k..k + 5];
    AtNext(run, k, events[0]);
    AtNext(run, k + 1, events[1]);
    AtNext(run, k + 2, events[2]);
    AtNext(run, k + 3, events[3]);
    assert run.events[k + 4] == events[4];
    ReplyNext(run, k + 4, events[4]);
  }

  lemma CleanupSequence(cfg: Config, s0: System, s1: System, s2: System, s3: System, s4: System, d: nat, w: Worker)
    requires Accounted(s0, w) && w in StaleAt(cfg, s0.tables)
    requires forall job | job in s0.jobs :: job.0 != d
    requires s1 == Scanned(cfg, s0, d).0 && s2 == StateRead(s1, d, w).0
    requires s3 == OwnerStep(s2, d, w).0 && s4 == StateStep(s3, d, w).0
    ensures ActiveStep(s4, d, w).1 == Done
  {
    assert PhaseOf(s1, d, w) == Some(Listed) by {
      assert (d, w) in ScanJobs(cfg, s0, d);
    }
    assert PhaseOf(s2, d, w) == Some(Found(SessionTask(s0.tables, w)));
    assert PhaseOf(s3, d, w) == Some(OwnerCleared);
  }

  lemma {:induction false} NoTraceIsFinal(run: Run, w: Worker, i: nat, k: nat)
    requires i <= k <= |run.events| && Accounted(run.start, w) && run.Quiet(w) && NoTrace(run.At(i), w)
    ensures NoTrace(run.At(k), w)
    decreases k
  {
    if i < k {
      NoTraceIsFinal(run, w, i, k - 1);
      DeadWorkerStaysAccounted(run, w, k - 1);
      QuietStep(run.cfg, run.At(k - 1), run.events[k - 1], w);
    }
  }

  // ----- Deadlines -----

  ghost predicate DeadlinesAhead(cfg: Config, s: System)
  {
    && (forall t | t in s.tables.owner ::
          s.tables.now < s.tables.owner[t].deadline <= s.tables.now + cfg.ttl)
    && (forall w | w in s.tables.session ::
          s.tables.now < s.tables.session[w].deadline <= s.tables.now + cfg.ttl)
  }

  lemma DeadlinesStep(cfg: Config, s: System, e: Event)
    requires DeadlinesAhead(cfg, s) && cfg.ttl > 0
    ensures DeadlinesAhead(cfg, Step(cfg, s, e).0)
  {
    match e
    case Tick(to) =>
    case Claim(w, t, title, agentType) =>
    case Heartbeat(w) =>
    case Complete(w, t) =>
    case _ =>
      var s' := Step(cfg, s, e).0;
      assert s'.tables.now == s.tables.now;
      assert forall t | t in s'.tables.owner :: t in s.tables.owner && s'.tables.owner[t] == s.tables.owner[t];
  }

  lemma {:induction false} DeadlinesStayAhead(run: Run, k: nat)
    requires k <= |run.events| && DeadlinesAhead(run.cfg, run.start) && run.cfg.ttl > 0
    ensures DeadlinesAhead(run.cfg, run.At(k))
  {
    if k > 0 {
      DeadlinesStayAhead(run, k - 1);
      DeadlinesStep(run.cfg, run.At(k - 1), run.events[k - 1]);
    }
  }

  ghost predicate DeadlinesBy(s: System, w: Worker, limit: int)
  {
    && (forall t | OwnedBy(s, t, w) :: s.tables.owner[t].deadline <= limit)
    && (w in s.tables.session ==> s.tables.session[w].deadline <= limit)
  }

  lemma QuietDeadlineStep(cfg: Config, s: System, e: Event, w: Worker, limit: int)
    requires DeadlinesBy(s, w, limit) && !ActsFor(e, w)
    ensures DeadlinesBy(Step(cfg, s, e).0, w, limit)
  {
    if !(e.Tick? || e.Scan? || (IsJobStep(e) && e.worker == w)) {
      OthersLeaveWorkerAlone(cfg, s, e, w);
    }
  }

  lemma {:induction false} QuietDeadlines(run: Run, w: Worker, k: nat)
    requires k <= |run.events| && DeadlinesAhead(run.cfg, run.start) && run.Quiet(w)
    ensures DeadlinesBy(run.At(k), w, run.start.tables.now + run.cfg.ttl)
  {
    if k > 0 {
      QuietDeadlines(run, w, k - 1);
      QuietDeadlineStep(run.cfg, run.At(k - 1), run.events[k - 1], w, run.start.tables.now + run.cfg.ttl);
    }
  }

  /**
   With no detector at all, and however many tasks it held, a worker silent for the TTL owns nothing
   and has no session.
   */
  lemma SilenceForTtlReleasesEverything(run: Run, w: Worker, k: nat)
    requires k <= |run.events| && DeadlinesAhead(run.cfg, run.start) && run.cfg.ttl > 0 && run.Quiet(w)
    requires run.start.tables.now + run.cfg.ttl <= run.At(k).tables.now
    ensures forall t :: !OwnedBy(run.At(k), t, w)
    ensures w !in run.At(k).tables.session
  {
    DeadlinesStayAhead(run, k);
    QuietDeadlines(run, w, k);
  }
}
