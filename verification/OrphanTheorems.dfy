/** When a detection cycle finds orphaned tasks at all, and when one of them belongs to somebody else. */
module OrphanTheorems {
  import opened Prelude
  import opened LeaseStore
  import opened LeaseProtocol
  import opened LeaseTheorems
  import opened LeaseCleanup
  import opened StaleDetector

  // ----- A threshold that covers the TTL -----

  /** A registered worker's session expires one TTL after the worker was last heard of. */
  ghost predicate SessionFollowsScore(cfg: Config, s: System, w: Worker)
  {
    w in s.tables.session && w in s.tables.active ==> s.tables.session[w].deadline == s.tables.active[w] + cfg.ttl
  }

  lemma SessionFollowsScoreStep(cfg: Config, s: System, e: Event, w: Worker)
    requires SessionFollowsScore(cfg, s, w)
    ensures SessionFollowsScore(cfg, Step(cfg, s, e).0, w)
  {
  }

  lemma {:induction false} SessionsFollowScores(run: Run, k: nat, w: Worker)
    requires k <= |run.events| && SessionFollowsScore(run.cfg, run.start, w)
    ensures SessionFollowsScore(run.cfg, run.At(k), w)
  {
    if k > 0 {
      SessionsFollowScores(run, k - 1, w);
      AtNext(run, k - 1, run.events[k - 1]);
      SessionFollowsScoreStep(run.cfg, run.At(k - 1), run.events[k - 1], w);
    }
  }

  /**
   With a stale threshold of at least the TTL, as the defaults have it, a worker has lost its session by
   the time it is stale: in no reachable state does a stale worker have one.
   */
  lemma StaleWorkersHaveNoSession(run: Run, k: nat, w: Worker)
    requires k <= |run.events| && run.FromEmpty() && run.cfg.threshold >= run.cfg.ttl > 0
    requires w in StaleAt(run.cfg, run.At(k).tables)
    ensures w !in run.At(k).tables.session
  {
    SessionsFollowScores(run, k, w);
    DeadlinesStayAhead(run, k);
  }

  /** A cycle run at any point then finds no orphaned task to reopen, however many workers it finds stale. */
  lemma NoOrphansWhenThresholdCoversTtl(run: Run, k: nat, found: seq<StaleWorker>)
    requires k <= |run.events| && run.FromEmpty() && run.cfg.threshold >= run.cfg.ttl > 0
    requires Detected(run.cfg, run.At(k).tables, found)
    ensures Orphans(found) == []
  {
    forall i | 0 <= i < |found|
      ensures found[i].task == None
    {
      assert Reported(run.cfg, run.At(k).tables, found[i]);
      StaleWorkersHaveNoSession(run, k, found[i].worker);
    }
    NoTasksNoOrphans(found);
  }

  lemma {:induction false} NoTasksNoOrphans(sws: seq<StaleWorker>)
    requires forall i | 0 <= i < |sws| :: sws[i].task == None
    ensures Orphans(sws) == []
  {
    if sws != [] {
      NoTasksNoOrphans(sws[..|sws| - 1]);
    }
  }

  // ----- An orphan that belongs to somebody else -----

  /** The session of w names only a task that w owns, and the two expire together. */
  ghost predicate SessionOwnsTask(s: System, w: Worker)
  {
    SessionTask(s.tables, w).Some? ==>
      var t := SessionTask(s.tables, w).value;
      OwnedBy(s, t, w) && s.tables.owner[t].deadline == s.tables.session[w].deadline
  }

  lemma SessionOwnsTaskStep(cfg: Config, s: System, e: Event, w: Worker)
    requires SessionOwnsTask(s, w) && !(e.ClearOwner? && e.worker == w)
    ensures SessionOwnsTask(Step(cfg, s, e).0, w)
  {
  }

  /** While no cleanup has cleared a lease of w, expiry included, w owns the task its session names. */
  lemma {:induction false} SessionsOwnTheirTasks(run: Run, k: nat, w: Worker)
    requires k <= |run.events| && SessionOwnsTask(run.start, w)
    requires forall i | 0 <= i < k :: !(run.events[i].ClearOwner? && run.events[i].worker == w)
    ensures SessionOwnsTask(run.At(k), w)
  {
    if k > 0 {
      SessionsOwnTheirTasks(run, k - 1, w);
      SessionOwnsTaskStep(run.cfg, run.At(k - 1), run.events[k - 1], w);
    }
  }

  lemma IdsValidStep(cfg: Config, s: System, e: Event)
    requires SessionIdsValid(s.tables)
    ensures SessionIdsValid(Step(cfg, s, e).0.tables)
  {
  }

  /** Only names the client accepts ever get into the tables, so no cleanup has to give up on one. */
  lemma {:induction false} IdsStayValid(run: Run, k: nat)
    requires k <= |run.events| && SessionIdsValid(run.start.tables)
    ensures SessionIdsValid(run.At(k).tables)
  {
    if k > 0 {
      IdsStayValid(run, k - 1);
      IdsValidStep(run.cfg, run.At(k - 1), run.events[k - 1]);
    }
  }

  /**
   So an orphan of w is owned by w before the cycle, and by nobody after it, unless an earlier or
   concurrent cleanup of w has got to the owner key and been cut short before the session.
   */
  lemma OrphansBelongToTheDead(run: Run, k: nat, found: seq<StaleWorker>, i: nat)
    requires k <= |run.events| && run.FromEmpty()
    requires Detected(run.cfg, run.At(k).tables, found) && i < |found| && found[i].task.Some?
    requires forall j | 0 <= j < k :: !(run.events[j].ClearOwner? && run.events[j].worker == found[i].worker)
    ensures OwnedBy(run.At(k), found[i].task.value, found[i].worker)
    ensures found[i].task.value !in AfterCleanups(run.At(k).tables, found).owner
  {
    assert Reported(run.cfg, run.At(k).tables, found[i]);
    SessionsOwnTheirTasks(run, k, found[i].worker);
    IdsStayValid(run, k);
    OrphanIsUnownedUnlessReclaimed(run.cfg, run.At(k).tables, found, i);
  }

  /** A cleanup of w cut short after the owner key, and a claim by v of the task that this set free. */
  function ReclaimEvents(w: Worker, v: Worker, t: Task, title: string, agentType: string, stale: int): seq<Event>
  {
    [Claim(w, t, title, agentType), Tick(stale), Scan(0), ReadState(0, w), ClearOwner(0, w), Abandon(0, w),
     Claim(v, t, title, agentType)]
  }

  /** Only w has a session, and it names t, which nobody owns; w was last heard of a threshold ago. */
  ghost predicate LeftBehind(cfg: Config, s: System, w: Worker, t: Task)
  {
    && s.tables.owner == map[] && SessionTask(s.tables, w) == Some(t)
    && (forall u | u in s.tables.session :: u == w)
    && s.tables.active == map[w := s.tables.now - cfg.threshold]
  }

  /** w owns t and nobody else has anything. */
  ghost predicate OnlyWorker(cfg: Config, s: System, w: Worker, t: Task, beat: int)
  {
    && s.tables.owner == map[t := Lease(w, beat + cfg.ttl)] && s.tables.active == map[w := beat]
    && SessionTask(s.tables, w) == Some(t) && s.tables.session[w].deadline == beat + cfg.ttl
    && (forall u | u in s.tables.session :: u == w)
  }

  /** Where the cut-short cleanup is after k events. */
  ghost predicate Stage(cfg: Config, s: System, w: Worker, t: Task, beat: int, k: nat)
  {
    if k >= 5 then LeftBehind(cfg, s, w, t)
    else
      && OnlyWorker(cfg, s, w, t, beat) && s.tables.now == (if k == 1 then beat else beat + cfg.threshold)
      && if k <= 2 then s.jobs == map[] else PhaseOf(s, 0, w) == Some(if k == 3 then Listed else Found(Some(t)))
  }

  lemma StageStep(cfg: Config, s: System, w: Worker, t: Task, beat: int, k: nat, e: Event)
    requires 1 <= k <= 5 && Stage(cfg, s, w, t, beat, k) && 0 < cfg.threshold < cfg.ttl && ValidId(w) && ValidId(t)
    requires e == [Tick(beat + cfg.threshold), Scan(0), ReadState(0, w), ClearOwner(0, w), Abandon(0, w)][k - 1]
    ensures Stage(cfg, Step(cfg, s, e).0, w, t, beat, k + 1)
  {
    if k == 2 {
      assert (0, w) in ScanJobs(cfg, s, 0);
    }
  }

  lemma {:induction false} StageReached(run: Run, w: Worker, v: Worker, t: Task, title: string, agentType: string,
        k: nat)
    requires 0 < run.cfg.threshold < run.cfg.ttl && ValidId(w) && ValidId(t)
    requires run.start == Empty(run.start.tables.now)
    requires run.events == ReclaimEvents(w, v, t, title, agentType, run.start.tables.now + run.cfg.threshold)
    requires 1 <= k <= 6
    ensures Stage(run.cfg, run.At(k), w, t, run.start.tables.now, k)
  {
    if k > 1 {
      StageReached(run, w, v, t, title, agentType, k - 1);
      StageStep(run.cfg, run.At(k - 1), w, t, run.start.tables.now, k - 1, run.events[k - 1]);
    }
  }

  /** The cycle that finds `found` in s reports w's task t as an orphan, which v owns before and after. */
  ghost predicate ReportsRivalsTask(s: System, found: seq<StaleWorker>, w: Worker, v: Worker, t: Task)
  {
    && (exists o :: o in Orphans(found) && o.task == t && o.worker == w)
    && OwnedBy(s, t, v) && t in AfterCleanups(s.tables, found).owner
    && AfterCleanups(s.tables, found).owner[t].worker == v
  }

  /**
   Below the TTL it does happen, from empty tables and for any such threshold: a cleanup cut short after
   the owner key leaves the session, another worker claims the task, and the next cycle reports the task
   as an orphan while its new owner keeps it.
   */
  lemma RivalsTaskIsReported(run: Run, w: Worker, v: Worker, t: Task, title: string, agentType: string,
        found: seq<StaleWorker>)
    requires 0 < run.cfg.threshold < run.cfg.ttl && ValidId(w) && ValidId(v) && ValidId(t) && w != v
    requires run.start == Empty(run.start.tables.now)
    requires run.events == ReclaimEvents(w, v, t, title, agentType, run.start.tables.now + run.cfg.threshold)
    requires Detected(run.cfg, run.At(7).tables, found)
    ensures ReportsRivalsTask(run.At(7), found, w, v, t)
  {
    StageReached(run, w, v, t, title, agentType, 6);
    AtNext(run, 6, Claim(v, t, title, agentType));
    RivalIsNotStale(run.cfg, run.At(6), run.At(7), w, v, t, title, agentType, found);
  }

  lemma RivalIsNotStale(cfg: Config, s: System, s': System, w: Worker, v: Worker, t: Task, title: string,
        agentType: string, found: seq<StaleWorker>)
    requires 0 < cfg.threshold && ValidId(w) && ValidId(v) && ValidId(t) && w != v
    requires LeftBehind(cfg, s, w, t)
    requires s' == Claimed(cfg, s, v, t, title, agentType).0 && Detected(cfg, s'.tables, found)
    ensures ReportsRivalsTask(s', found, w, v, t)
  {
    assert w in StaleAt(cfg, s'.tables) && v !in StaleAt(cfg, s'.tables);
    var i :| 0 <= i < |found| && found[i].worker == w;
    assert Reported(cfg, s'.tables, found[i]);
    assert SessionIdsValid(s'.tables);
    OrphanIsUnownedUnlessReclaimed(cfg, s'.tables, found, i);
    forall j | 0 <= j < |found|
      ensures Cleanable(found[j])
    {
      assert Reported(cfg, s'.tables, found[j]);
    }
    CleanupsInClosedForm(s'.tables, found);
  }
}
