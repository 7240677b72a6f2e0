/** What the numbers of a metrics snapshot count, in terms of the events and the tasks themselves. */
module SnapshotLaws {
  import opened Prelude
  import opened Metrics
  import opened MetricsTheorems
  import opened HourlyBuckets

  // ----- Hours -----

  const NANOSECONDS_PER_HOUR: int := 3_600_000_000_000

  /** The hour of a time is the whole hour at or before it, less than an hour earlier. */
  lemma HourIff(timestamp: int, hour: int)
    ensures HourlyBuckets.Hour(timestamp) == hour <==>
            hour % NANOSECONDS_PER_HOUR == 0 && hour <= timestamp < hour + NANOSECONDS_PER_HOUR
  {
    if hour % NANOSECONDS_PER_HOUR == 0 && hour <= timestamp < hour + NANOSECONDS_PER_HOUR {
      assert timestamp % NANOSECONDS_PER_HOUR == timestamp - hour;
    }
  }

  predicate FallsInto(task: HourlyBuckets.Task, key: Key)
  {
    key.hour <= task.timestamp < key.hour + NANOSECONDS_PER_HOUR && task.location == key.location
  }

  lemma KeyOfIff(task: HourlyBuckets.Task, key: Key)
    requires key.hour % NANOSECONDS_PER_HOUR == 0
    ensures KeyOf(task) == key <==> FallsInto(task, key)
  {
    HourIff(task.timestamp, key.hour);
  }

  // ----- One snapshot -----

  predicate Succeeded(task: HourlyBuckets.Task) { task.data.success }

  predicate Failed(task: HourlyBuckets.Task) { !task.data.success }

  predicate IsTimed(task: HourlyBuckets.Task) { task.data.success && task.data.duration > 0 }

  function Duration(task: HourlyBuckets.Task): int { task.data.duration }

  function LinesChanged(task: HourlyBuckets.Task): int { task.data.linesAdded + task.data.linesRemoved }

  /** Succeeded no more than an hour before now. */
  function InLastHour(now: int): HourlyBuckets.Task -> bool
  {
    (task: HourlyBuckets.Task) => task.data.success && task.timestamp >= now - NANOSECONDS_PER_HOUR
  }

  /** The totals count tasks by success, by having a duration, and by the last hour. */
  lemma {:induction false} TotalsCountTasks(tasks: seq<HourlyBuckets.Task>, now: int)
    ensures var t := TotalsOf(tasks, now);
            && t.completed == |Places(tasks, Succeeded)| && t.failed == |Places(tasks, Failed)|
            && t.timed == |Places(tasks, IsTimed)| && t.duration == SumWhere(tasks, IsTimed, Duration)
            && t.lastHour == |Places(tasks, InLastHour(now))|
            && t.linesLastHour == SumWhere(tasks, InLastHour(now), LinesChanged)
  {
    if tasks == [] {
      PlacesOfNothing(tasks, Succeeded);
      PlacesOfNothing(tasks, Failed);
      PlacesOfNothing(tasks, IsTimed);
      PlacesOfNothing(tasks, InLastHour(now));
    } else {
      TotalsCountTasks(tasks[..|tasks| - 1], now);
      OneMorePlace(tasks, Succeeded);
      OneMorePlace(tasks, Failed);
      OneMorePlace(tasks, IsTimed);
      OneMorePlace(tasks, InLastHour(now));
    }
  }

  function And(holds: HourlyBuckets.Task -> bool, key: Key): HourlyBuckets.Task -> bool
  {
    (task: HourlyBuckets.Task) => FallsInto(task, key) && holds(task)
  }

  /** A bucket counts the same of the tasks that fall into its hour, in its location. */
  lemma {:induction false} BucketCountsTasks(tasks: seq<HourlyBuckets.Task>, key: Key)
    requires key.hour % NANOSECONDS_PER_HOUR == 0
    ensures var b := BucketOf(tasks, key);
            && b.completed == |Places(tasks, And(Succeeded, key))| && b.failed == |Places(tasks, And(Failed, key))|
            && b.timed == |Places(tasks, And(IsTimed, key))|
            && b.duration == SumWhere(tasks, And(IsTimed, key), Duration)
  {
    if tasks == [] {
      PlacesOfNothing(tasks, And(Succeeded, key));
      PlacesOfNothing(tasks, And(Failed, key));
      PlacesOfNothing(tasks, And(IsTimed, key));
    } else {
      BucketCountsTasks(tasks[..|tasks| - 1], key);
      KeyOfIff(tasks[|tasks| - 1], key);
      OneMorePlace(tasks, And(Succeeded, key));
      OneMorePlace(tasks, And(Failed, key));
      OneMorePlace(tasks, And(IsTimed, key));
    }
  }

  /** The name that a dimension takes from a task. */
  function Carries(dimension: Dimension, name: string): HourlyBuckets.Task -> bool
  {
    (task: HourlyBuckets.Task) =>
      match dimension
      case Role => task.data.role == name
      case Epic => task.data.epic == name
      case Agent => task.data.agent == name
  }

  /** The counts by role, by epic and by agent: each name that is not empty, with the number of its tasks. */
  lemma {:induction false} TallyCounts(tasks: seq<HourlyBuckets.Task>, dimension: Dimension, name: string)
    ensures var (tally, n) := (TallyOf(tasks, dimension), |Places(tasks, Carries(dimension, name))|);
            && (name in tally <==> name != "" && n > 0)
            && (name in tally ==> tally[name] == n)
  {
    if tasks == [] {
      PlacesOfNothing(tasks, Carries(dimension, name));
    } else {
      TallyCounts(tasks[..|tasks| - 1], dimension, name);
      OneMorePlace(tasks, Carries(dimension, name));
    }
  }

  // ----- The life of a store -----

  /** The task entries that a life hands to the store. */
  function TasksOf(ops: seq<Op>): seq<Stamped<TaskData>>
  {
    if ops == [] then []
    else
      var op := ops[|ops| - 1];
      TasksOf(ops[..|ops| - 1])
      + if op.Observe? && op.e.TaskEvent? then [Stamped(op.e.timestamp, op.e.location, op.e.task)] else []
  }

  function AgentsOf(ops: seq<Op>): seq<Stamped<AgentData>>
  {
    if ops == [] then []
    else
      var op := ops[|ops| - 1];
      AgentsOf(ops[..|ops| - 1])
      + if op.Observe? && op.e.AgentEvent? then [Stamped(op.e.timestamp, op.e.location, op.e.agent)] else []
  }

  predicate IsRestart(entry: Stamped<AgentData>) { entry.data.kind == Restarted }

  lemma TaskCountsGrow(ops: seq<Op>)
    requires ops != []
    ensures var (init, op) := (ops[..|ops| - 1], ops[|ops| - 1]);
            var (good, bad) := (op.Observe? && op.e.TaskEvent? && op.e.task.success,
                                op.Observe? && op.e.TaskEvent? && !op.e.task.success);
            && |Places(TasksOf(ops), Succeeded)| == |Places(TasksOf(init), Succeeded)| + (if good then 1 else 0)
            && |Places(TasksOf(ops), Failed)| == |Places(TasksOf(init), Failed)| + (if bad then 1 else 0)
  {
    var init, op := ops[..|ops| - 1], ops[|ops| - 1];
    if op.Observe? && op.e.TaskEvent? {
      assert TasksOf(ops)[..|TasksOf(ops)| - 1] == TasksOf(init);
      OneMorePlace(TasksOf(ops), Succeeded);
      OneMorePlace(TasksOf(ops), Failed);
    } else {
      assert TasksOf(ops) == TasksOf(init);
    }
  }

  lemma RestartCountGrows(ops: seq<Op>)
    requires ops != []
    ensures var (init, op) := (ops[..|ops| - 1], ops[|ops| - 1]);
            var restarts := op.Observe? && op.e.AgentEvent? && op.e.agent.kind == Restarted;
            |Places(AgentsOf(ops), IsRestart)| == |Places(AgentsOf(init), IsRestart)| + (if restarts then 1 else 0)
  {
    var init, op := ops[..|ops| - 1], ops[|ops| - 1];
    if op.Observe? && op.e.AgentEvent? {
      assert AgentsOf(ops)[..|AgentsOf(ops)| - 1] == AgentsOf(init);
      OneMorePlace(AgentsOf(ops), IsRestart);
    } else {
      assert AgentsOf(ops) == AgentsOf(init);
    }
  }

  /** The counters of a store, which are never pruned, count all the events of its life. */
  lemma {:induction false} CountersCountEvents(now: int, retention: int, ops: seq<Op>)
    ensures var s := After(System(EMPTY, now), retention, ops).store;
            && s.completed == |Places(TasksOf(ops), Succeeded)| && s.failed == |Places(TasksOf(ops), Failed)|
            && s.restarts == |Places(AgentsOf(ops), IsRestart)|
  {
    if ops == [] {
      PlacesOfNothing(TasksOf(ops), Succeeded);
      PlacesOfNothing(TasksOf(ops), Failed);
      PlacesOfNothing(AgentsOf(ops), IsRestart);
    } else {
      CountersCountEvents(now, retention, ops[..|ops| - 1]);
      TaskCountsGrow(ops);
      RestartCountGrows(ops);
    }
  }

  /** The places of the entries that are not older than the cutoff. */
  function InWindow<T>(entries: seq<Stamped<T>>, cutoff: int): set<nat>
  {
    Places(entries, (entry: Stamped<T>) => entry.timestamp >= cutoff)
  }

  /** The entries at some places, in order. */
  function At<T>(entries: seq<T>, places: seq<nat>): seq<T>
    requires forall k | 0 <= k < |places| :: places[k] < |entries|
  {
    seq(|places|, k requires 0 <= k < |places| => entries[places[k]])
  }

  ghost predicate Enumerates(places: seq<nat>, all: set<nat>)
  {
    && (forall j, k | 0 <= j < k < |places| :: places[j] < places[k])
    && forall n :: n in places <==> n in all
  }

  /** A window is the entries not older than the cutoff, each once and in the order they came. */
  lemma {:induction false} SinceIsWindow<T>(entries: seq<Stamped<T>>, cutoff: int) returns (places: seq<nat>)
    ensures Enumerates(places, InWindow(entries, cutoff))
    ensures (forall k | 0 <= k < |places| :: places[k] < |entries|) && Since(entries, cutoff) == At(entries, places)
  {
    if entries == [] {
      return [];
    }
    var init, last := entries[..|entries| - 1], |entries| - 1;
    var before := SinceIsWindow(init, cutoff);
    places := if entries[last].timestamp >= cutoff then before + [last] else before;
    LastIsEnumerated(entries, cutoff, before, places);
    assert At(init, before) == At(entries, before);
  }

  lemma LastIsEnumerated<T>(entries: seq<Stamped<T>>, cutoff: int, before: seq<nat>, places: seq<nat>)
    requires entries != [] && Enumerates(before, InWindow(entries[..|entries| - 1], cutoff))
    requires places == before + if entries[|entries| - 1].timestamp >= cutoff then [|entries| - 1] else []
    ensures Enumerates(places, InWindow(entries, cutoff))
  {
    var init, last := entries[..|entries| - 1], |entries| - 1;
    forall n
      ensures n in places <==> n in InWindow(entries, cutoff)
    {
      assert n in before <==> n in InWindow(init, cutoff);
    }
    forall k | 0 <= k < |before|
      ensures before[k] < last
    {
      assert before[k] in before;
    }
  }

  /** Without pruning the store holds every entry of its life. */
  lemma {:induction false} NothingIsDropped(now: int, retention: int, ops: seq<Op>)
    requires Essential(ops) == ops
    ensures var s := After(System(EMPTY, now), retention, ops).store;
            s.tasks == TasksOf(ops) && s.agents == AgentsOf(ops)
  {
    if ops != [] {
      EssentialInit(ops);
      NothingIsDropped(now, retention, ops[..|ops| - 1]);
    }
  }

  lemma {:induction false} EssentialIsShorter(ops: seq<Op>)
    ensures |Essential(ops)| <= |ops|
  {
    if ops != [] {
      EssentialIsShorter(ops[..|ops| - 1]);
    }
  }

  lemma EssentialInit(ops: seq<Op>)
    requires ops != [] && Essential(ops) == ops
    ensures Essential(ops[..|ops| - 1]) == ops[..|ops| - 1]
    ensures ops[|ops| - 1] != Prune && ops[|ops| - 1] != Snapshot
  {
    EssentialIsShorter(ops[..|ops| - 1]);
  }

  lemma {:induction false} EssentialIsEssential(ops: seq<Op>)
    ensures Essential(Essential(ops)) == Essential(ops)
    ensures TasksOf(Essential(ops)) == TasksOf(ops) && AgentsOf(Essential(ops)) == AgentsOf(ops)
  {
    if ops != [] {
      var init, op := ops[..|ops| - 1], ops[|ops| - 1];
      EssentialIsEssential(init);
      if op == Prune || op == Snapshot {
        assert Essential(ops) == Essential(init);
      } else {
        assert Essential(ops)[..|Essential(ops)| - 1] == Essential(init);
      }
    }
  }

  /** So a snapshot shows the entries of the whole life that lie in its window, whenever pruning took place. */
  lemma SnapshotShowsTheWindow(now: int, retention: int, ops: seq<Op>)
    ensures var s := After(System(EMPTY, now), retention, ops);
            var copied := Copy(s.store, s.now, retention).store;
            && copied.tasks == Since(TasksOf(ops), s.now - retention)
            && copied.agents == Since(AgentsOf(ops), s.now - retention)
  {
    EssentialIsEssential(ops);
    PruningIsUnobservable(System(EMPTY, now), retention, ops, Essential(ops));
    NothingIsDropped(now, retention, Essential(ops));
  }
}
