/**
 Every interleaving of workers, of the clock and of any number of stale-worker detectors.

 A detector's scan leaves one job per listed worker. Reading the worker's session and the three
 deletes are separate steps, so anything may happen between them. No step consults the leader
 key: what is proved here holds whoever believes itself the leader.
 */
module LeaseProtocol {
  import opened Prelude
  import opened LeaseStore

  /** How far a detector has got with one worker it listed. */
  datatype Phase =
    | Listed
    | Found(task: Option<Task>)
    | OwnerCleared
    | StateCleared

  datatype System = System(tables: Tables, jobs: map<(nat, Worker), Phase>)

  function Empty(now: int): System { System(Tables(now, map[], map[], map[]), map[]) }

  datatype Event =
    | Tick(to: int)
    | Claim(worker: Worker, task: Task, title: string, agentType: string)
    | Heartbeat(worker: Worker)
    | Complete(worker: Worker, task: Task)
    | Scan(detector: nat)
    | ReadState(detector: nat, worker: Worker)
    | ClearOwner(detector: nat, worker: Worker)
    | ClearState(detector: nat, worker: Worker)
    | ClearActive(detector: nat, worker: Worker)
    | Abandon(detector: nat, worker: Worker)

  predicate ActsFor(e: Event, w: Worker)
  {
    (e.Claim? || e.Heartbeat? || e.Complete?) && e.worker == w
  }

  function ScanJobs(cfg: Config, s: System, d: nat): map<(nat, Worker), Phase>
  {
    map w | w in StaleAt(cfg, s.tables) :: (d, w) := Listed
  }

  /** The owner step of a cleanup. An identifier the client rejects makes the cleanup give up. */
  function ClearOwnerStep(s: System, d: nat, w: Worker, task: Option<Task>): System
  {
    match task
    case None => s.(jobs := s.jobs[(d, w) := OwnerCleared])
    case Some(t) =>
      if !ValidId(t) || !ValidId(w) then s.(jobs := s.jobs - {(d, w)})
      else System(AfterCleanupOwner(s.tables, w, t), s.jobs[(d, w) := OwnerCleared])
  }

  function PhaseOf(s: System, d: nat, w: Worker): Option<Phase>
  {
    if (d, w) in s.jobs then Some(s.jobs[(d, w)]) else None
  }

  function Ticked(s: System, to: int): (System, Reply)
  {
    if to < s.tables.now then (s, Ignored) else (s.(tables := AtTime(s.tables, to)), Done)
  }

  function Claimed(cfg: Config, s: System, w: Worker, t: Task, title: string, agentType: string): (System, Reply)
  {
    (s.(tables := AfterClaim(cfg, s.tables, w, t, title, agentType)), ClaimReply(s.tables, w, t))
  }

  function Beaten(cfg: Config, s: System, w: Worker): (System, Reply)
  {
    (s.(tables := AfterHeartbeat(cfg, s.tables, w)), HeartbeatReply(s.tables, w))
  }

  function Completed(cfg: Config, s: System, w: Worker, t: Task): (System, Reply)
  {
    (s.(tables := AfterComplete(cfg, s.tables, w, t)), CompleteReply(s.tables, w, t))
  }

  /** A detector scans again only when it is through with every worker of its last scan. */
  function Scanned(cfg: Config, s: System, d: nat): (System, Reply)
  {
    if exists job | job in s.jobs :: job.0 == d then (s, Ignored)
    else (s.(jobs := s.jobs + ScanJobs(cfg, s, d)), Done)
  }

  function StateRead(s: System, d: nat, w: Worker): (System, Reply)
  {
    if PhaseOf(s, d, w) != Some(Listed) then (s, Ignored)
    else (s.(jobs := s.jobs[(d, w) := Found(SessionTask(s.tables, w))]), Done)
  }

  function OwnerStep(s: System, d: nat, w: Worker): (System, Reply)
  {
    if !((d, w) in s.jobs && s.jobs[(d, w)].Found?) then (s, Ignored)
    else (ClearOwnerStep(s, d, w, s.jobs[(d, w)].task), Done)
  }

  function StateStep(s: System, d: nat, w: Worker): (System, Reply)
  {
    if PhaseOf(s, d, w) != Some(OwnerCleared) then (s, Ignored)
    else (System(s.tables.(session := s.tables.session - {w}), s.jobs[(d, w) := StateCleared]), Done)
  }

  function ActiveStep(s: System, d: nat, w: Worker): (System, Reply)
  {
    if PhaseOf(s, d, w) != Some(StateCleared) then (s, Ignored)
    else (System(s.tables.(active := s.tables.active - {w}), s.jobs - {(d, w)}), Done)
  }

  /** The system after an event and the reply to it; an event that cannot happen now is ignored. */
  function Step(cfg: Config, s: System, e: Event): (System, Reply)
  {
    match e
    case Tick(to) => Ticked(s, to)
    case Claim(w, t, title, agentType) => Claimed(cfg, s, w, t, title, agentType)
    case Heartbeat(w) => Beaten(cfg, s, w)
    case Complete(w, t) => Completed(cfg, s, w, t)
    case Scan(d) => Scanned(cfg, s, d)
    case ReadState(d, w) => StateRead(s, d, w)
    case ClearOwner(d, w) => OwnerStep(s, d, w)
    case ClearState(d, w) => StateStep(s, d, w)
    case ClearActive(d, w) => ActiveStep(s, d, w)
    case Abandon(d, w) => (s.(jobs := s.jobs - {(d, w)}), Done)
  }

  predicate OwnedBy(s: System, t: Task, w: Worker)
  {
    t in s.tables.owner && s.tables.owner[t].worker == w
  }

  /** A run: a start and the events that follow. `At(k)` is the system after the first k events. */
  datatype Run = Run(cfg: Config, start: System, events: seq<Event>) {

    function At(k: nat): System
      requires k <= |events|
    {
      if k == 0 then start else Step(cfg, At(k - 1), events[k - 1]).0
    }

    function ReplyAt(k: nat): Reply
      requires k < |events|
    {
      Step(cfg, At(k), events[k]).1
    }

    predicate FromEmpty()
    {
      && start.tables.owner == map[] && start.tables.session == map[] && start.tables.active == map[]
      && start.jobs == map[]
    }

    // ----- A live worker is safe -----

    /** When `w` was last heard of, counting the start. */
    function LastBeat(w: Worker, k: nat): int
      requires k <= |events|
    {
      if k == 0 then start.tables.now
      else if events[k - 1] == Heartbeat(w) then At(k - 1).tables.now
      else LastBeat(w, k - 1)
    }

    /** `w` only sends heartbeats, and is never silent for the TTL or for the stale threshold. */
    ghost predicate Punctual(w: Worker)
    {
      && (forall k | 0 <= k < |events| :: ActsFor(events[k], w) ==> events[k] == Heartbeat(w))
      && (forall k | 0 <= k <= |events| :: At(k).tables.now - LastBeat(w, k) < Min(cfg.ttl, cfg.threshold))
    }

    // ----- History -----

    predicate Grants(k: nat, t: Task)
      requires k < |events|
    {
      events[k].Claim? && events[k].task == t && ReplyAt(k) == Done
    }

    predicate Completes(k: nat, t: Task)
      requires k < |events|
    {
      events[k].Complete? && events[k].task == t && ReplyAt(k) == Done
    }

    predicate Reaps(k: nat, t: Task)
      requires k < |events|
    {
      events[k].ClearOwner? && t in At(k).tables.owner && t !in At(k + 1).tables.owner
    }

    /** Event c granted t to w, and nothing since has granted, completed or reaped t. */
    ghost predicate LatestGrant(c: nat, k: nat, w: Worker, t: Task)
      requires k <= |events|
    {
      && c < k && Grants(c, t) && events[c].worker == w
      && forall m | c < m < k :: !Grants(m, t) && !Completes(m, t) && !Reaps(m, t)
    }

    function ClaimCount(k: nat, t: Task): nat
      requires k <= |events|
    {
      if k == 0 then 0 else ClaimCount(k - 1, t) + (if Grants(k - 1, t) then 1 else 0)
    }

    function CompleteCount(k: nat, t: Task): nat
      requires k <= |events|
    {
      if k == 0 then 0 else CompleteCount(k - 1, t) + (if Completes(k - 1, t) then 1 else 0)
    }

    /** Event i was a call by `w` that succeeded. */
    predicate Contact(i: nat, w: Worker)
      requires i < |events|
    {
      ActsFor(events[i], w) && ReplyAt(i) == Done
    }

    ghost predicate Quiet(w: Worker)
    {
      forall k | 0 <= k < |events| :: !ActsFor(events[k], w)
    }

    /** No detector gets as far as deleting w's session or its entry in the sorted set. */
    ghost predicate NeverUnregistered(w: Worker)
    {
      forall k | 0 <= k < |events| :: !((events[k].ClearState? || events[k].ClearActive?) && events[k].worker == w)
    }
  }
}
