/**
 The metrics store: stamped entries pruned in place to a retention window, counters that are never
 pruned, and per-agent working time. Averages and percentages are left to whoever reads a snapshot.
 */
module Metrics {
  import opened Prelude

  /**
   The location a time carries. It is the identity that Go compares, so two times with the same offset
   may still have different locations.
   */
  type Location = string

  /** A time is an instant and a location; everything but the buckets of a snapshot looks at instants only. */
  datatype Stamped<+T> = Stamped(timestamp: int, location: Location, data: T)

  datatype TaskData = TaskData(
    agent: string, role: string, epic: string, task: string, duration: int, success: bool,
    linesAdded: int, linesRemoved: int, filesChanged: int)

  datatype AgentKind = Started | Stopped | Restarted

  datatype AgentData = AgentData(agent: string, kind: AgentKind, restartCount: int, exitCode: int)

  /** The zero time, which the store takes for "never started". */
  const ZERO_TIME: int := 0

  datatype Util = Util(lastStart: int, workDuration: int, isWorking: bool)

  const IDLE := Util(ZERO_TIME, 0, false)

  datatype Store = Store(
    tasks: seq<Stamped<TaskData>>, agents: seq<Stamped<AgentData>>,
    completed: nat, failed: nat, restarts: nat, utilization: map<string, Util>)

  const EMPTY := Store([], [], 0, 0, 0, map[])

  /** An event that decodes; one that does not, and one of another kind, is ignored. */
  datatype Event =
    | TaskEvent(timestamp: int, location: Location, task: TaskData)
    | AgentEvent(timestamp: int, location: Location, agent: AgentData)
    | Ignored

  // ----- The window -----

  function Since<T>(entries: seq<Stamped<T>>, cutoff: int): seq<Stamped<T>>
  {
    if entries == [] then []
    else
      var last := entries[|entries| - 1];
      Since(entries[..|entries| - 1], cutoff) + if last.timestamp >= cutoff then [last] else []
  }

  function Pruned(s: Store, cutoff: int): Store
  {
    s.(tasks := Since(s.tasks, cutoff), agents := Since(s.agents, cutoff))
  }

  /** The two-pointer filter: entries in the window move down, then the slice is cut. */
  method PruneInPlace<T>(entries: seq<Stamped<T>>, cutoff: int) returns (kept: seq<Stamped<T>>)
    ensures kept == Since(entries, cutoff)
  {
    kept := entries;
    var n := 0;
    for i := 0 to |entries|
      invariant 0 <= n <= i && |kept| == |entries|
      invariant kept[..n] == Since(entries[..i], cutoff)
      invariant kept[i..] == entries[i..]
    {
      assert kept[i] == kept[i..][0] == entries[i];
      assert entries[..i + 1][..i] == entries[..i];
      var entry := kept[i];
      if !(entry.timestamp < cutoff) {
        ghost var before := kept;
        kept := kept[n := entry];
        assert kept[..n + 1] == before[..n] + [entry];
        n := n + 1;
      }
      assert kept[i + 1..] == entries[i..][1..];
    }
    assert entries[..|entries|] == entries;
    kept := kept[..n];
  }

  // ----- Events -----

  function Noted(u: Util, starts: bool, timestamp: int): Util
  {
    var work :=
      if u.isWorking && u.lastStart != ZERO_TIME then u.workDuration + (timestamp - u.lastStart) else u.workDuration;
    Util(if starts then timestamp else u.lastStart, work, starts)
  }

  function UtilOf(s: Store, agent: string): Util { if agent in s.utilization then s.utilization[agent] else IDLE }

  function Observed(s: Store, e: Event): Store
  {
    match e
    case TaskEvent(timestamp, location, task) =>
      s.(tasks := s.tasks + [Stamped(timestamp, location, task)],
         completed := s.completed + if task.success then 1 else 0,
         failed := s.failed + if task.success then 0 else 1)
    case AgentEvent(timestamp, location, agent) =>
      s.(agents := s.agents + [Stamped(timestamp, location, agent)],
         restarts := s.restarts + if agent.kind == Restarted then 1 else 0,
         utilization := s.utilization[agent.agent := Noted(UtilOf(s, agent.agent), agent.kind != Stopped, timestamp)])
    case Ignored => s
  }

  /** What Snapshot copies under the lock; all that a snapshot shows is computed from this. */
  datatype Copied = Copied(now: int, store: Store, retention: int)

  function Copy(s: Store, now: int, retention: int): Copied
  {
    Copied(now, Pruned(s, now - retention), retention)
  }

  /** The working time a snapshot reports for an agent, before it is divided by the retention. */
  function ReportedWork(u: Util, now: int, retention: int): int
  {
    var open := if u.isWorking && u.lastStart != ZERO_TIME then now - Max(u.lastStart, now - retention) else 0;
    Min(u.workDuration + open, retention)
  }

  class MetricsStore {
    const retention: int
    var tasks: seq<Stamped<TaskData>>
    var agents: seq<Stamped<AgentData>>
    var completed: nat
    var failed: nat
    var restarts: nat
    var utilization: map<string, Util>

    ghost function Abstract(): Store
      reads this
    {
      Store(tasks, agents, completed, failed, restarts, utilization)
    }

    constructor (retention: int)
      ensures Abstract() == EMPTY && this.retention > 0
      ensures retention > 0 ==> this.retention == retention
    {
      this.retention := if retention <= 0 then 24 * 3600 * 1_000_000_000 else retention;
      tasks, agents, completed, failed, restarts, utilization := [], [], 0, 0, 0, map[];
    }

    method HandleEvent(e: Event)
      modifies this
      ensures Abstract() == Observed(old(Abstract()), e)
    {
      match e {
        case TaskEvent(timestamp, location, task) =>
          tasks := tasks + [Stamped(timestamp, location, task)];
          if task.success {
            completed := completed + 1;
          } else {
            failed := failed + 1;
          }
        case AgentEvent(timestamp, location, agent) =>
          agents := agents + [Stamped(timestamp, location, agent)];
          if agent.kind == Restarted {
            restarts := restarts + 1;
          }
          var state := if agent.agent in utilization then utilization[agent.agent] else IDLE;
          if state.isWorking && state.lastStart != ZERO_TIME {
            state := state.(workDuration := state.workDuration + (timestamp - state.lastStart));
          }
          if agent.kind == Stopped {
            state := state.(isWorking := false);
          } else {
            state := state.(lastStart := timestamp, isWorking := true);
          }
          utilization := utilization[agent.agent := state];
        case Ignored =>
      }
    }

    method Prune(now: int)
      modifies this
      ensures Abstract() == Pruned(old(Abstract()), now - retention)
    {
      tasks := PruneInPlace(tasks, now - retention);
      agents := PruneInPlace(agents, now - retention);
    }

    method CopyState(now: int) returns (copied: Copied)
      modifies this
      ensures Abstract() == Pruned(old(Abstract()), now - retention)
      ensures copied == Copy(old(Abstract()), now, retention)
    {
      Prune(now);
      copied := Copied(now, Store(tasks, agents, completed, failed, restarts, utilization), retention);
    }
  }

  /** `share` is `work` over `retention`, and lies in (0, 1]. */
  ghost predicate IsShare(share: real, work: int, retention: int)
  {
    0.0 < share <= 1.0 && share * retention as real == work as real
  }

  method Share(work: int, retention: int) returns (share: real)
    requires 0 < work <= retention
    ensures IsShare(share, work, retention)
  {
    share := work as real / retention as real;
  }

  /** An agent is reported when it has worked, with a share of the retention in (0, 1]. */
  method ComputeUtilization(copied: Copied) returns (shares: map<string, real>)
    requires copied.retention > 0
    ensures forall a :: a in shares <==>
              a in copied.store.utilization
                && ReportedWork(copied.store.utilization[a], copied.now, copied.retention) > 0
    ensures forall a | a in shares ::
              IsShare(shares[a], ReportedWork(copied.store.utilization[a], copied.now, copied.retention),
                copied.retention)
  {
    var cutoff := copied.now - copied.retention;
    shares := map[];
    var rest := copied.store.utilization.Keys;
    while rest != {}
      invariant rest <= copied.store.utilization.Keys
      invariant forall a :: a in shares <==>
                  a in copied.store.utilization && a !in rest &&
                  ReportedWork(copied.store.utilization[a], copied.now, copied.retention) > 0
      invariant forall a | a in shares ::
                  IsShare(shares[a], ReportedWork(copied.store.utilization[a], copied.now, copied.retention),
                    copied.retention)
      decreases |rest|
    {
      var agent :| agent in rest;
      rest := rest - {agent};
      var s := copied.store.utilization[agent];
      var work := s.workDuration;
      if s.isWorking && s.lastStart != ZERO_TIME {
        var effectiveStart := s.lastStart;
        if effectiveStart < cutoff {
          effectiveStart := cutoff;
        }
        work := work + (copied.now - effectiveStart);
      }
      if work > copied.retention {
        work := copied.retention;
      }
      assert work == ReportedWork(s, copied.now, copied.retention);
      if work > 0 {
        var share := Share(work, copied.retention);
        shares := shares[agent := share];
      }
    }
  }
}
