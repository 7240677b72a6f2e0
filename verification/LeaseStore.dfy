/**
 The Redis tables behind the task leases, and the operations of the kv client on them.

 Three tables: task -> owner (with a deadline), worker -> session hash (with a deadline),
 and the sorted set of active workers, scored by last contact and without a deadline.
 Times are milliseconds on one clock; an entry whose deadline has been reached is gone.
 */
module LeaseStore {
  import opened Prelude

  type Worker = string
  type Task = string

  /** The time to live given to owner keys and session hashes, and the silence after which a worker is stale. */
  datatype Config = Config(ttl: int, threshold: int)

  datatype Lease = Lease(worker: Worker, deadline: int)

  /** The session hash. Completing a task deletes the task fields but keeps the hash. */
  datatype Session = Session(
    task: Option<Task>, title: Option<string>, working: bool,
    claimedAt: Option<int>, agentType: Option<string>, deadline: int)

  datatype Tables = Tables(
    now: int,
    owner: map<Task, Lease>,
    session: map<Worker, Session>,
    active: map<Worker, int>)

  datatype Reply =
    | Done
    | HeldBy(worker: Worker)
    | NoActiveSession
    | OwnershipLost
    | TaskNotFound
    | NotOwner
    | InvalidId
    | Ignored

  // ----- Key names -----

  const KEY_PREFIX := "loom:"

  function TaskOwnerKey(t: Task): string { KEY_PREFIX + "task:" + t + ":owner" }

  function WorkerStateKey(w: Worker): string { KEY_PREFIX + "worker:" + w + ":state" }

  function ActiveWorkersKey(): string { KEY_PREFIX + "workers:active" }

  /** The default of the leader key, which the configuration may replace. */
  function LeaderKey(): string { KEY_PREFIX + "stale-detector:leader" }

  /**
   The three tables and the leader key may be modelled apart: no two of the keys coincide unless they name
   the same thing.
   */
  lemma KeysDoNotCollide(t1: Task, t2: Task, w1: Worker, w2: Worker)
    ensures TaskOwnerKey(t1) == TaskOwnerKey(t2) <==> t1 == t2
    ensures WorkerStateKey(w1) == WorkerStateKey(w2) <==> w1 == w2
    ensures TaskOwnerKey(t1) != WorkerStateKey(w1)
    ensures TaskOwnerKey(t1) != ActiveWorkersKey() && WorkerStateKey(w1) != ActiveWorkersKey()
    ensures LeaderKey() !in {TaskOwnerKey(t1), WorkerStateKey(w1), ActiveWorkersKey()}
  {
    var p, q := |KEY_PREFIX + "task:"|, |KEY_PREFIX + "worker:"|;
    assert TaskOwnerKey(t1)[p..p + |t1|] == t1 && TaskOwnerKey(t2)[p..p + |t2|] == t2;
    assert WorkerStateKey(w1)[q..q + |w1|] == w1 && WorkerStateKey(w2)[q..q + |w2|] == w2;
    assert TaskOwnerKey(t1)[5] == 't' && WorkerStateKey(w1)[5] == 'w' && ActiveWorkersKey()[5] == 'w';
    assert LeaderKey()[5] == 's';
    assert WorkerStateKey(w1)[11] == ':' && ActiveWorkersKey()[11] == 's';
  }

  predicate ValidId(id: string)
  {
    id != "" && forall c | c in id :: c !in ":\n\r\t "
  }

  // ----- What each operation does to the tables -----

  /** Time reaches `to`: owner keys and sessions whose deadline has been reached are gone. */
  function AtTime(s: Tables, to: int): Tables
  {
    Tables(to,
           map t | t in s.owner && to < s.owner[t].deadline :: s.owner[t],
           map w | w in s.session && to < s.session[w].deadline :: s.session[w],
           s.active)
  }

  function ClaimReply(s: Tables, w: Worker, t: Task): Reply
  {
    if !ValidId(w) || !ValidId(t) then InvalidId
    else if t in s.owner && s.owner[t].worker != w then HeldBy(s.owner[t].worker)
    else Done
  }

  function AfterClaim(cfg: Config, s: Tables, w: Worker, t: Task, title: string, agentType: string): Tables
  {
    if ClaimReply(s, w, t) != Done then s
    else
      s.(owner := s.owner[t := Lease(w, s.now + cfg.ttl)],
         session := s.session[w := Session(Some(t), Some(title), true, Some(s.now), Some(agentType), s.now + cfg.ttl)],
         active := s.active[w := s.now])
  }

  function HeartbeatReply(s: Tables, w: Worker): Reply
  {
    if !ValidId(w) then InvalidId
    else if w !in s.session then NoActiveSession
    else
      match s.session[w].task
      case Some(t) => if t in s.owner && s.owner[t].worker != w then OwnershipLost else Done
      case None => Done
  }

  function AfterHeartbeat(cfg: Config, s: Tables, w: Worker): Tables
  {
    if HeartbeatReply(s, w) != Done then s
    else
      var deadline := s.now + cfg.ttl;
      var session := s.session[w];
      s.(owner := if session.task.Some? && session.task.value in s.owner
                  then s.owner[session.task.value := Lease(w, deadline)] else s.owner,
         session := s.session[w := session.(deadline := deadline)],
         active := s.active[w := s.now])
  }

  function CompleteReply(s: Tables, w: Worker, t: Task): Reply
  {
    if !ValidId(w) || !ValidId(t) then InvalidId
    else if t !in s.owner then TaskNotFound
    else if s.owner[t].worker != w then NotOwner
    else Done
  }

  /** Note that the session hash is created when it had expired, and that its task fields are
      dropped whatever task they named. */
  function AfterComplete(cfg: Config, s: Tables, w: Worker, t: Task): Tables
  {
    if CompleteReply(s, w, t) != Done then s
    else
      var agentType := if w in s.session then s.session[w].agentType else None;
      s.(owner := s.owner - {t},
         session := s.session[w := Session(None, None, false, None, agentType, s.now + cfg.ttl)],
         active := s.active[w := s.now])
  }

  /** The cleanup-owner script: delete the owner key only when it still names `w`. */
  function AfterCleanupOwner(s: Tables, w: Worker, t: Task): Tables
  {
    if t in s.owner && s.owner[t].worker == w then s.(owner := s.owner - {t}) else s
  }

  function StaleAt(cfg: Config, s: Tables): map<Worker, int>
  {
    map w | w in s.active && s.active[w] <= s.now - cfg.threshold :: s.active[w]
  }

  function SessionTask(s: Tables, w: Worker): Option<Task>
  {
    if w in s.session then s.session[w].task else None
  }

  // ----- The client -----

  /** What the leader key holds. */
  datatype Leader = Leader(server: string, deadline: int)

  /** The kv client together with the Redis instance it talks to. */
  class KvClient {
    var now: int
    var owner: map<Task, Lease>
    var session: map<Worker, Session>
    var active: map<Worker, int>
    var leader: Option<Leader>

    ghost function State(): Tables
      reads this
    {
      Tables(now, owner, session, active)
    }

    constructor (start: int)
      ensures State() == Tables(start, map[], map[], map[]) && leader == None
    {
      now := start;
      owner := map[];
      session := map[];
      active := map[];
      leader := None;
    }

    /** Redis expires keys by itself; none of the client's calls is involved. */
    method Advance(to: int)
      modifies this
      ensures State() == AtTime(old(State()), to)
      ensures leader == if old(leader).Some? && to < old(leader).value.deadline then old(leader) else None
    {
      owner := map t | t in owner && to < owner[t].deadline :: owner[t];
      session := map w | w in session && to < session[w].deadline :: session[w];
      if leader.Some? && to >= leader.value.deadline {
        leader := None;
      }
      now := to;
    }

    method ClaimTask(cfg: Config, w: Worker, t: Task, title: string, agentType: string) returns (r: Reply)
      modifies this
      ensures r == ClaimReply(old(State()), w, t)
      ensures State() == AfterClaim(cfg, old(State()), w, t, title, agentType) && leader == old(leader)
    {
      if !ValidId(w) || !ValidId(t) {
        return InvalidId;
      }
      if t in owner && owner[t].worker != w {
        return HeldBy(owner[t].worker);
      }
      owner := owner[t := Lease(w, now + cfg.ttl)];
      var hash := if w in session then session[w] else Session(None, None, false, None, None, 0);
      hash := hash.(task := Some(t), title := Some(title), working := true,
                    claimedAt := Some(now), agentType := Some(agentType));
      session := session[w := hash];
      session := session[w := session[w].(deadline := now + cfg.ttl)];
      active := active[w := now];
      return Done;
    }

    method Heartbeat(cfg: Config, w: Worker) returns (r: Reply)
      modifies this
      ensures r == HeartbeatReply(old(State()), w)
      ensures State() == AfterHeartbeat(cfg, old(State()), w) && leader == old(leader)
    {
      if !ValidId(w) {
        return InvalidId;
      }
      if w !in session {
        return NoActiveSession;
      }
      var task := session[w].task;
      if task.Some? {
        var t := task.value;
        if t in owner && owner[t].worker != w {
          return OwnershipLost;
        }
        if t in owner {
          owner := owner[t := owner[t].(deadline := now + cfg.ttl)];
        }
      }
      session := session[w := session[w].(deadline := now + cfg.ttl)];
      active := active[w := now];
      return Done;
    }

    method CompleteTask(cfg: Config, w: Worker, t: Task) returns (r: Reply)
      modifies this
      ensures r == CompleteReply(old(State()), w, t)
      ensures State() == AfterComplete(cfg, old(State()), w, t) && leader == old(leader)
    {
      if !ValidId(w) || !ValidId(t) {
        return InvalidId;
      }
      if t !in owner {
        return TaskNotFound;
      }
      if owner[t].worker != w {
        return NotOwner;
      }
      owner := owner - {t};
      var hash := if w in session then session[w] else Session(None, None, false, None, None, 0);
      hash := hash.(task := None, title := None, claimedAt := None);
      hash := hash.(working := false);
      session := session[w := hash.(deadline := now + cfg.ttl)];
      active := active[w := now];
      return Done;
    }

    /** True when the key was deleted or absent, false when another worker holds it. */
    method DeleteTaskOwnerIfMatch(t: Task, expected: Worker) returns (r: Reply)
      modifies this
      ensures !ValidId(t) || !ValidId(expected) ==> r == InvalidId && State() == old(State())
      ensures ValidId(t) && ValidId(expected) ==>
                && State() == AfterCleanupOwner(old(State()), expected, t)
                && r == if t in State().owner then HeldBy(State().owner[t].worker) else Done
      ensures leader == old(leader)
    {
      if !ValidId(t) || !ValidId(expected) {
        return InvalidId;
      }
      if t !in owner {
        return Done;
      }
      if owner[t].worker == expected {
        owner := owner - {t};
        return Done;
      }
      return HeldBy(owner[t].worker);
    }

    method DeleteWorkerState(w: Worker)
      modifies this
      ensures State() == old(State()).(session := old(session) - {w}) && leader == old(leader)
    {
      session := session - {w};
    }

    method RemoveActiveWorker(w: Worker)
      modifies this
      ensures State() == old(State()).(active := old(active) - {w}) && leader == old(leader)
    {
      active := active - {w};
    }

    /** SET NX: takes a free key only. */
    method SetLeaderKey(server: string, ttl: int) returns (acquired: bool)
      modifies `leader
      ensures acquired <==> old(leader) == None
      ensures leader == if acquired then Some(Leader(server, now + ttl)) else old(leader)
    {
      acquired := leader == None;
      if acquired {
        leader := Some(Leader(server, now + ttl));
      }
    }

    /** EXPIRE: whoever holds the key, it holds it longer. */
    method RenewLeaderKey(ttl: int)
      modifies `leader
      ensures leader == if old(leader) == None then None else Some(Leader(old(leader).value.server, now + ttl))
    {
      if leader.Some? {
        leader := Some(leader.value.(deadline := now + ttl));
      }
    }

    /** The workers with a score at or below the cutoff, each once; the order is Redis's choice. */
    method GetStaleWorkers(cfg: Config) returns (entries: seq<(Worker, int)>)
      ensures forall w, score :: (w, score) in entries <==> w in StaleAt(cfg, State()) && score == active[w]
      ensures forall i, j | 0 <= i < j < |entries| :: entries[i].0 != entries[j].0
    {
      var cutoff := now - cfg.threshold;
      entries := [];
      var rest := active.Keys;
      while rest != {}
        invariant rest <= active.Keys
        invariant forall w, score :: (w, score) in entries <==>
                                     w in active && w !in rest && active[w] <= cutoff && score == active[w]
        invariant forall i | 0 <= i < |entries| :: entries[i].0 !in rest
        invariant forall i, j | 0 <= i < j < |entries| :: entries[i].0 != entries[j].0
        decreases |rest|
      {
        var w :| w in rest;
        rest := rest - {w};
        if active[w] <= cutoff {
          entries := entries + [(w, active[w])];
        }
      }
    }
  }
}
