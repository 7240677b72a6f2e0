/**
 One detection cycle run start to finish: elect, list the stale workers, read their sessions, reap them.
 Interleaved cycles are the subject of LeaseProtocol; this is the sequential code.
 */
module StaleDetector {
  import opened Prelude
  import opened LeaseStore

  datatype StaleWorker = StaleWorker(worker: Worker, task: Option<Task>, title: Option<string>, lastHeartbeat: int)

  datatype OrphanedTask = OrphanedTask(task: Task, title: Option<string>, worker: Worker, staleSince: int)

  datatype Status = Status(isLeader: bool, lastCheck: Option<int>, staleWorkersFound: nat, tasksReconciled: nat)

  /** The cleanup gives up, before any delete, on a task or worker name the client rejects. */
  predicate Cleanable(sw: StaleWorker)
  {
    sw.task.Some? ==> ValidId(sw.task.value) && ValidId(sw.worker)
  }

  function AfterCleanup(s: Tables, sw: StaleWorker): Tables
  {
    if !Cleanable(sw) then s
    else
      var cleared := if sw.task.Some? then AfterCleanupOwner(s, sw.worker, sw.task.value) else s;
      cleared.(session := cleared.session - {sw.worker}, active := cleared.active - {sw.worker})
  }

  function AfterCleanups(s: Tables, sws: seq<StaleWorker>): Tables
  {
    if sws == [] then s else AfterCleanup(AfterCleanups(s, sws[..|sws| - 1]), sws[|sws| - 1])
  }

  function Orphans(sws: seq<StaleWorker>): seq<OrphanedTask>
  {
    if sws == [] then [] else
      var sw := sws[|sws| - 1];
      Orphans(sws[..|sws| - 1])
      + if Cleanable(sw) && sw.task.Some? then [OrphanedTask(sw.task.value, sw.title, sw.worker, sw.lastHeartbeat)]
        else []
  }

  /** How many of the orphans the reconciler resets, given the tasks for which it succeeds. */
  function Reconciled(orphans: seq<OrphanedTask>, resets: set<Task>): nat
  {
    if orphans == [] then 0
    else Reconciled(orphans[..|orphans| - 1], resets) + if orphans[|orphans| - 1].task in resets then 1 else 0
  }

  /** What detectStaleWorkers reports: each stale worker once, with what its session says. */
  ghost predicate Detected(cfg: Config, s: Tables, sws: seq<StaleWorker>)
  {
    && (forall i, j | 0 <= i < j < |sws| :: sws[i].worker != sws[j].worker)
    && (forall i | 0 <= i < |sws| :: Reported(cfg, s, sws[i]))
    && (forall w | w in StaleAt(cfg, s) :: exists i :: 0 <= i < |sws| && sws[i].worker == w)
  }

  ghost predicate Reported(cfg: Config, s: Tables, sw: StaleWorker)
  {
    && sw.worker in StaleAt(cfg, s) && sw.lastHeartbeat == s.active[sw.worker]
    && sw.task == SessionTask(s, sw.worker)
    && sw.title == (if sw.worker in s.session then s.session[sw.worker].title else None)
  }

  /**
   What an election meets: whether SET NX gets through, what has become of the key by the time of the GET
   (it may have expired, or been taken anew), and whether the GET gets through.
   */
  datatype Election = Election(reachable: bool, later: Option<Leader>, readable: bool)
  {
    predicate Shows(server: string) { readable && later.Some? && later.value.server == server }
  }

  class Detector {
    const client: KvClient
    const config: Config
    const serverId: string
    const leaderTtl: int
    var status: Status

    constructor (client: KvClient, config: Config, serverId: string, leaderTtl: int)
      ensures this.client == client && this.config == config
      ensures this.serverId == serverId && this.leaderTtl == leaderTtl
      ensures status == Status(false, None, 0, 0)
    {
      this.client := client;
      this.config := config;
      this.serverId := serverId;
      this.leaderTtl := leaderTtl;
      status := Status(false, None, 0, 0);
    }

    /** SET NX on the leader key, and if that finds it taken a look at who holds it by then; None for an error. */
    method TryAcquireLeadership(election: Election) returns (isLeader: Option<bool>)
      modifies client`leader
      ensures isLeader == None <==> !election.reachable
      ensures election.reachable ==>
                (isLeader.value <==> old(client.leader) == None || election.Shows(serverId))
      ensures client.leader ==
              if !election.reachable then old(client.leader)
              else if old(client.leader) == None then Some(Leader(serverId, client.now + leaderTtl))
              else election.later
    {
      if !election.reachable {
        return None;
      }
      var acquired := client.SetLeaderKey(serverId, leaderTtl);
      if acquired {
        return Some(true);
      }
      client.leader := election.later;
      if !election.readable || client.leader == None {
        return Some(false);
      }
      return Some(client.leader.value.server == serverId);
    }

    method DetectStaleWorkers() returns (found: seq<StaleWorker>)
      ensures Detected(config, client.State(), found)
    {
      var entries := client.GetStaleWorkers(config);
      found := [];
      for i := 0 to |entries|
        invariant |found| == i
        invariant forall j | 0 <= j < i ::
                    found[j].worker == entries[j].0 && entries[j] in entries
                      && Reported(config, client.State(), found[j])
      {
        var (w, score) := entries[i];
        assert (w, score) in entries;
        var title := if w in client.session then client.session[w].title else None;
        found := found + [StaleWorker(w, if w in client.session then client.session[w].task else None, title, score)];
      }
      forall w | w in StaleAt(config, client.State())
        ensures exists i :: 0 <= i < |found| && found[i].worker == w
      {
        assert (w, client.active[w]) in entries;
        var i :| 0 <= i < |entries| && entries[i] == (w, client.active[w]);
        assert found[i].worker == w;
      }
    }

    /** True when the worker was cleaned up. The reply of the owner check is not looked at. */
    method CleanupWorker(sw: StaleWorker) returns (ok: bool)
      modifies client
      ensures client.State() == AfterCleanup(old(client.State()), sw)
      ensures ok == Cleanable(sw) && client.leader == old(client.leader)
    {
      if sw.task.Some? {
        var reply := client.DeleteTaskOwnerIfMatch(sw.task.value, sw.worker);
        if reply == InvalidId {
          return false;
        }
      }
      client.DeleteWorkerState(sw.worker);
      client.RemoveActiveWorker(sw.worker);
      return true;
    }

    /** The cleanup loop of a cycle. */
    method CleanupAll(found: seq<StaleWorker>) returns (orphans: seq<OrphanedTask>)
      modifies client
      ensures client.State() == AfterCleanups(old(client.State()), found) && client.leader == old(client.leader)
      ensures client.now == old(client.now)
      ensures orphans == Orphans(found)
    {
      orphans := [];
      for i := 0 to |found|
        invariant client.State() == AfterCleanups(old(client.State()), found[..i])
                  && client.leader == old(client.leader)
        invariant client.now == old(client.now)
        invariant orphans == Orphans(found[..i])
      {
        assert found[..i + 1][..i] == found[..i];
        var ok := CleanupWorker(found[i]);
        if ok && found[i].task.Some? {
          orphans := orphans
            + [OrphanedTask(found[i].task.value, found[i].title, found[i].worker, found[i].lastHeartbeat)];
        }
      }
      assert found[..|found|] == found;
    }

    method CountReconciled(orphans: seq<OrphanedTask>, resets: set<Task>) returns (reconciled: nat)
      ensures reconciled == Reconciled(orphans, resets)
    {
      reconciled := 0;
      for i := 0 to |orphans|
        invariant reconciled == Reconciled(orphans[..i], resets)
      {
        assert orphans[..i + 1][..i] == orphans[..i];
        if orphans[i].task in resets {
          reconciled := reconciled + 1;
        }
      }
      assert orphans[..|orphans|] == orphans;
    }

    /** `resets` is the reconciler's answer: the tasks it resets with success; None when there is no reconciler. */
    method RunCycle(election: Election, resets: Option<set<Task>>)
      returns (found: seq<StaleWorker>, orphans: seq<OrphanedTask>)
      modifies this, client
      ensures !election.reachable ==> status == old(status) && client.leader == old(client.leader)
      ensures election.reachable ==>
                && (status.isLeader <==> old(client.leader) == None || election.Shows(serverId))
                && client.leader ==
                   (if status.isLeader then Some(Leader(serverId, old(client.now) + leaderTtl)) else election.later)
                && (!status.isLeader ==> status == old(status).(isLeader := false))
      ensures !(election.reachable && status.isLeader) ==>
                client.State() == old(client.State()) && found == [] && orphans == []
      ensures election.reachable && status.isLeader ==>
                && Detected(config, old(client.State()), found)
                && client.State() == AfterCleanups(old(client.State()), found)
                && orphans == Orphans(found)
                && status == Status(true, Some(old(client.now)), |found|,
                                    if resets.Some? && orphans != [] then Reconciled(orphans, resets.value)
                                    else old(status).tasksReconciled)
    {
      found, orphans := [], [];
      var isLeader := TryAcquireLeadership(election);
      if isLeader == None {
        return;
      }
      status := status.(isLeader := isLeader.value);
      if !isLeader.value {
        return;
      }
      found := DetectStaleWorkers();
      status := status.(lastCheck := Some(client.now), staleWorkersFound := |found|);
      if |found| == 0 {
        assert found == [];
        client.RenewLeaderKey(leaderTtl);
        return;
      }
      orphans := CleanupAll(found);
      if resets.Some? && |orphans| > 0 {
        var reconciled := CountReconciled(orphans, resets.value);
        status := status.(tasksReconciled := reconciled);
      }
      client.RenewLeaderKey(leaderTtl);
    }
  }

  // ----- What a cycle achieves -----

  predicate SessionIdsValid(s: Tables)
  {
    && (forall w | w in s.active :: ValidId(w))
    && (forall w | w in s.session :: s.session[w].task.Some? ==> ValidId(s.session[w].task.value))
  }

  /** A lease goes exactly when its owner was reported and its owner's session named the task. */
  predicate ReapedLease(s: Tables, sws: seq<StaleWorker>, t: Task)
    requires t in s.owner
  {
    exists i :: 0 <= i < |sws| && sws[i].worker == s.owner[t].worker && sws[i].task == Some(t)
  }

  predicate IsReported(sws: seq<StaleWorker>, w: Worker)
  {
    exists i :: 0 <= i < |sws| && sws[i].worker == w
  }

  /** Cleaning up a list of workers, in terms of the tables it started from. */
  lemma {:induction false} CleanupsInClosedForm(s: Tables, sws: seq<StaleWorker>)
    requires forall i | 0 <= i < |sws| :: Cleanable(sws[i])
    ensures var s' := AfterCleanups(s, sws);
            && s'.now == s.now
            && (forall t :: t in s'.owner <==> t in s.owner && !ReapedLease(s, sws, t))
            && (forall t | t in s'.owner :: s'.owner[t] == s.owner[t])
            && (forall w :: w in s'.session <==> w in s.session && !IsReported(sws, w))
            && (forall w | w in s'.session :: s'.session[w] == s.session[w])
            && (forall w :: w in s'.active <==> w in s.active && !IsReported(sws, w))
            && (forall w | w in s'.active :: s'.active[w] == s.active[w])
  {
    if sws != [] {
      var init, last := sws[..|sws| - 1], sws[|sws| - 1];
      CleanupsInClosedForm(s, init);
      forall w ensures IsReported(sws, w) <==> IsReported(init, w) || last.worker == w {
        if last.worker == w {
          assert sws[|sws| - 1].worker == w;
        }
        if IsReported(init, w) {
          var i :| 0 <= i < |init| && init[i].worker == w;
          assert sws[i].worker == w;
        }
      }
      forall t | t in s.owner
        ensures ReapedLease(s, sws, t) <==>
                ReapedLease(s, init, t) || (last.worker == s.owner[t].worker && last.task == Some(t))
      {
        if last.worker == s.owner[t].worker && last.task == Some(t) {
          assert sws[|sws| - 1] == last;
        }
        if ReapedLease(s, init, t) {
          var i :| 0 <= i < |init| && init[i].worker == s.owner[t].worker && init[i].task == Some(t);
          assert sws[i] == init[i];
        }
      }
    }
  }

  /**
   An uninterrupted cycle removes the session and sorted-set entry of every stale worker and of no
   other, and exactly those leases that a stale worker holds and its own session names.
   */
  lemma CycleReapsExactlyTheStale(cfg: Config, s: Tables, found: seq<StaleWorker>)
    requires SessionIdsValid(s) && Detected(cfg, s, found)
    ensures var s' := AfterCleanups(s, found);
            && s'.session.Keys == s.session.Keys - StaleAt(cfg, s).Keys
            && s'.active.Keys == s.active.Keys - StaleAt(cfg, s).Keys
            && forall t | t in s.owner ::
                 t !in s'.owner <==>
                 s.owner[t].worker in StaleAt(cfg, s) && SessionTask(s, s.owner[t].worker) == Some(t)
  {
    CleanupsInClosedForm(s, found);
    forall w ensures IsReported(found, w) <==> w in StaleAt(cfg, s) {
      if IsReported(found, w) {
        var i :| 0 <= i < |found| && found[i].worker == w;
        assert Reported(cfg, s, found[i]);
      }
    }
    forall t | t in s.owner
      ensures ReapedLease(s, found, t) <==>
              s.owner[t].worker in StaleAt(cfg, s) && SessionTask(s, s.owner[t].worker) == Some(t)
    {
      var w := s.owner[t].worker;
      if ReapedLease(s, found, t) {
        var i :| 0 <= i < |found| && found[i].worker == w && found[i].task == Some(t);
        assert Reported(cfg, s, found[i]);
      }
      if w in StaleAt(cfg, s) && SessionTask(s, w) == Some(t) {
        var i :| 0 <= i < |found| && found[i].worker == w;
        assert Reported(cfg, s, found[i]);
      }
    }
  }

  /**
   The orphan list handed to the reconciler, which reopens those tasks: a task on it is unowned after
   the cycle exactly when it was unowned before or held by a stale worker whose session named it. A
   task that another worker has meanwhile claimed is reported all the same, and stays owned.
   */
  lemma OrphanIsUnownedUnlessReclaimed(cfg: Config, s: Tables, found: seq<StaleWorker>, i: nat)
    requires SessionIdsValid(s) && Detected(cfg, s, found) && i < |found| && found[i].task.Some?
    ensures var t := found[i].task.value;
            && (exists o :: o in Orphans(found) && o.task == t && o.worker == found[i].worker)
            && (t !in AfterCleanups(s, found).owner <==>
                t in s.owner ==> s.owner[t].worker in StaleAt(cfg, s) && SessionTask(s, s.owner[t].worker) == Some(t))
  {
    CycleReapsExactlyTheStale(cfg, s, found);
    CleanupsInClosedForm(s, found);
    assert Reported(cfg, s, found[i]);
    OrphansReportEveryTask(found, i);
  }

  lemma {:induction false} OrphansReportEveryTask(sws: seq<StaleWorker>, i: nat)
    requires i < |sws| && Cleanable(sws[i]) && sws[i].task.Some?
    ensures OrphanedTask(sws[i].task.value, sws[i].title, sws[i].worker, sws[i].lastHeartbeat) in Orphans(sws)
  {
    if i < |sws| - 1 {
      OrphansReportEveryTask(sws[..|sws| - 1], i);
    }
  }

  /** What is reported for a worker that was cleaned up and had a task. */
  predicate IsOrphanOf(o: OrphanedTask, sw: StaleWorker)
  {
    && sw.task == Some(o.task) && ValidId(o.task) && ValidId(sw.worker)
    && o.worker == sw.worker && o.title == sw.title && o.staleSince == sw.lastHeartbeat
  }

  /** The orphans are the tasks of the workers that were cleaned up, and nothing else. */
  lemma {:induction false} OrphanIff(sws: seq<StaleWorker>, o: OrphanedTask)
    ensures o in Orphans(sws) <==> exists sw :: sw in sws && IsOrphanOf(o, sw)
  {
    if sws != [] {
      var init, last := sws[..|sws| - 1], sws[|sws| - 1];
      OrphanIff(init, o);
      assert sws == init + [last];
      assert (exists sw :: sw in sws && IsOrphanOf(o, sw)) <==>
             (exists sw :: sw in init && IsOrphanOf(o, sw)) || IsOrphanOf(o, last) by {
        assert forall sw :: sw in sws <==> sw in init || sw == last;
      }
    }
  }

  lemma {:induction false} ReconciledCounts(orphans: seq<OrphanedTask>, resets: set<Task>)
    ensures Reconciled(orphans, resets) == |Places(orphans, (o: OrphanedTask) => o.task in resets)|
  {
    if orphans == [] {
      PlacesOfNothing(orphans, (o: OrphanedTask) => o.task in resets);
    } else {
      ReconciledCounts(orphans[..|orphans| - 1], resets);
      OneMorePlace(orphans, (o: OrphanedTask) => o.task in resets);
    }
  }

  /** One cleanup: all of the worker and the lease it is reported with, or nothing when a name is rejected. */
  lemma CleanupIff(s: Tables, sw: StaleWorker)
    ensures var s' := AfterCleanup(s, sw);
            if sw.task.Some? && !(ValidId(sw.task.value) && ValidId(sw.worker)) then s' == s
            else
              && s'.now == s.now && s'.session == s.session - {sw.worker} && s'.active == s.active - {sw.worker}
              && s'.owner ==
                 if sw.task.Some? && sw.task.value in s.owner && s.owner[sw.task.value].worker == sw.worker
                 then s.owner - {sw.task.value} else s.owner
  {
  }
}
