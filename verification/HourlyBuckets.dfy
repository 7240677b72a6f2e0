/**
 The hourly part of a metrics snapshot: tasks are gathered into one bucket for each hour and location,
 the buckets are put in an array and sorted in place. Rates and averages are real numbers.
 */
module HourlyBuckets {
  import opened Metrics

  const HOUR: int := 3600 * 1_000_000_000

  /** Buckets are kept by a time, truncated to the hour; times are the same key only in the same location. */
  datatype Key = Key(hour: int, location: Location)

  datatype Bucket = Bucket(key: Key, completed: nat, failed: nat, duration: int, timed: nat)

  datatype Totals = Totals(completed: nat, failed: nat, lastHour: nat, linesLastHour: int, duration: int, timed: nat)

  type Task = Stamped<TaskData>

  /** The hour a time falls in; times are counted from the zero time, so rounding is downward. */
  function Hour(timestamp: int): int { timestamp - timestamp % HOUR }

  function KeyOf(task: Task): Key { Key(Hour(task.timestamp), task.location) }

  function Grown(b: Bucket, task: TaskData): Bucket
  {
    if !task.success then b.(failed := b.failed + 1)
    else if task.duration > 0 then
      b.(completed := b.completed + 1, duration := b.duration + task.duration, timed := b.timed + 1)
    else b.(completed := b.completed + 1)
  }

  /** The bucket of a key, from the tasks of that hour and location alone. */
  function BucketOf(tasks: seq<Task>, key: Key): Bucket
  {
    if tasks == [] then Bucket(key, 0, 0, 0, 0)
    else
      var b, last := BucketOf(tasks[..|tasks| - 1], key), tasks[|tasks| - 1];
      if KeyOf(last) == key then Grown(b, last.data) else b
  }

  ghost predicate IsKeyOf(tasks: seq<Task>, key: Key) { exists t :: t in tasks && KeyOf(t) == key }

  function Counted(t: Totals, task: Task, now: int): Totals
  {
    if !task.data.success then t.(failed := t.failed + 1)
    else
      var t := t.(completed := t.completed + 1);
      var t :=
        if task.data.duration > 0 then t.(duration := t.duration + task.data.duration, timed := t.timed + 1) else t;
      if task.timestamp >= now - HOUR
      then t.(lastHour := t.lastHour + 1,
        linesLastHour := t.linesLastHour + task.data.linesAdded + task.data.linesRemoved)
      else t
  }

  /** The totals, over all tasks, next to the part of the last hour before `now`. */
  function TotalsOf(tasks: seq<Task>, now: int): Totals
  {
    if tasks == [] then Totals(0, 0, 0, 0, 0, 0)
    else Counted(TotalsOf(tasks[..|tasks| - 1], now), tasks[|tasks| - 1], now)
  }

  /** What tasks are counted by; a task without the name is not counted. */
  datatype Dimension = Role | Epic | Agent

  function NameOf(dimension: Dimension, task: TaskData): string
  {
    match dimension
    case Role => task.role
    case Epic => task.epic
    case Agent => task.agent
  }

  function Tallied(tally: map<string, nat>, name: string): map<string, nat>
  {
    if name == "" then tally else tally[name := (if name in tally then tally[name] else 0) + 1]
  }

  function TallyOf(tasks: seq<Task>, dimension: Dimension): map<string, nat>
  {
    if tasks == [] then map[]
    else Tallied(TallyOf(tasks[..|tasks| - 1], dimension), NameOf(dimension, tasks[|tasks| - 1].data))
  }

  method CountTask(before: Totals, b: Bucket, task: Task, now: int) returns (totals: Totals, bucket: Bucket)
    ensures totals == Counted(before, task, now) && bucket == Grown(b, task.data)
  {
    totals, bucket := before, b;
    if task.data.success {
      totals := totals.(completed := totals.completed + 1);
      bucket := bucket.(completed := bucket.completed + 1);
      if task.data.duration > 0 {
        totals := totals.(duration := totals.duration + task.data.duration, timed := totals.timed + 1);
        bucket := bucket.(duration := bucket.duration + task.data.duration, timed := bucket.timed + 1);
      }
      if !(task.timestamp < now - HOUR) {
        totals := totals.(lastHour := totals.lastHour + 1,
                          linesLastHour := totals.linesLastHour + task.data.linesAdded + task.data.linesRemoved);
      }
    } else {
      totals := totals.(failed := totals.failed + 1);
      bucket := bucket.(failed := bucket.failed + 1);
    }
  }

  /** The map holds exactly the buckets of the keys that have a task. */
  ghost predicate IsHourly(hourly: map<Key, Bucket>, tasks: seq<Task>)
  {
    && (forall key :: key in hourly <==> IsKeyOf(tasks, key))
    && forall key | key in hourly :: hourly[key] == BucketOf(tasks, key)
  }

  lemma HourlyStep(hourly: map<Key, Bucket>, tasks: seq<Task>, task: Task)
    requires IsHourly(hourly, tasks)
    ensures var key := KeyOf(task);
            var bucket := if key in hourly then hourly[key] else Bucket(key, 0, 0, 0, 0);
            IsHourly(hourly[key := Grown(bucket, task.data)], tasks + [task])
  {
    var all, last := tasks + [task], KeyOf(task);
    assert all[..|tasks|] == tasks && all[|tasks|] == task;
    if last !in hourly {
      NoTasksNoBucket(tasks, last);
    }
    forall key
      ensures IsKeyOf(all, key) <==> IsKeyOf(tasks, key) || key == last
    {
      assert task in all;
    }
  }

  method AggregateTasks(tasks: seq<Task>, now: int)
    returns (totals: Totals, hourly: map<Key, Bucket>,
             byRole: map<string, nat>, byEpic: map<string, nat>, byAgent: map<string, nat>)
    ensures totals == TotalsOf(tasks, now)
    ensures IsHourly(hourly, tasks)
    ensures byRole == TallyOf(tasks, Role) && byEpic == TallyOf(tasks, Epic) && byAgent == TallyOf(tasks, Agent)
  {
    totals := Totals(0, 0, 0, 0, 0, 0);
    hourly := map[];
    byRole, byEpic, byAgent := map[], map[], map[];
    for i := 0 to |tasks|
      invariant totals == TotalsOf(tasks[..i], now)
      invariant IsHourly(hourly, tasks[..i])
      invariant byRole == TallyOf(tasks[..i], Role)
      invariant byEpic == TallyOf(tasks[..i], Epic)
      invariant byAgent == TallyOf(tasks[..i], Agent)
    {
      var task := tasks[i];
      assert tasks[..i + 1] == tasks[..i] + [task] && tasks[..i + 1][..i] == tasks[..i];
      HourlyStep(hourly, tasks[..i], task);
      var key := KeyOf(task);
      var bucket := if key in hourly then hourly[key] else Bucket(key, 0, 0, 0, 0);
      totals, bucket := CountTask(totals, bucket, task, now);
      hourly := hourly[key := bucket];
      byRole := Tallied(byRole, task.data.role);
      byEpic := Tallied(byEpic, task.data.epic);
      byAgent := Tallied(byAgent, task.data.agent);
    }
    assert tasks[..|tasks|] == tasks;
  }

  /** The tasks that carry a name, in the order of the list. */
  function Named(tasks: seq<Task>, dimension: Dimension, name: string): seq<Task>
  {
    if tasks == [] then []
    else
      var last := tasks[|tasks| - 1];
      Named(tasks[..|tasks| - 1], dimension, name) + if NameOf(dimension, last.data) == name then [last] else []
  }

  /** A tally has exactly the names that tasks carry, each with the number of its tasks. */
  lemma {:induction false} TallyCountsTasks(tasks: seq<Task>, dimension: Dimension, name: string)
    ensures name in TallyOf(tasks, dimension) <==> name != "" && Named(tasks, dimension, name) != []
    ensures name in TallyOf(tasks, dimension) ==> TallyOf(tasks, dimension)[name] == |Named(tasks, dimension, name)|
  {
    if tasks != [] {
      TallyCountsTasks(tasks[..|tasks| - 1], dimension, name);
    }
  }

  /** The error rate in percent and the average duration, 0 when there is nothing to divide by. */
  method Rates(totals: Totals) returns (errorRate: real, average: real)
    ensures 0.0 <= errorRate <= 100.0
    ensures errorRate * (totals.completed + totals.failed) as real == 100.0 * totals.failed as real
    ensures average * totals.timed as real == if totals.timed > 0 then totals.duration as real else 0.0
  {
    errorRate, average := 0.0, 0.0;
    var total := totals.completed + totals.failed;
    if total > 0 {
      errorRate := Percentage(totals.failed, total);
    }
    if totals.timed > 0 {
      average := totals.duration as real / totals.timed as real;
    }
  }

  method Percentage(part: nat, total: nat) returns (percentage: real)
    requires part <= total && total > 0
    ensures 0.0 <= percentage <= 100.0 && percentage * total as real == 100.0 * part as real
  {
    var share := part as real / total as real;
    assert share * total as real == part as real;
    assert 0.0 <= share <= 1.0;
    percentage := share * 100.0;
  }

  lemma {:induction false} NoTasksNoBucket(tasks: seq<Task>, key: Key)
    requires !IsKeyOf(tasks, key)
    ensures BucketOf(tasks, key) == Bucket(key, 0, 0, 0, 0)
  {
    if tasks != [] {
      assert tasks[|tasks| - 1] in tasks;
      assert forall t | t in tasks[..|tasks| - 1] :: t in tasks;
      NoTasksNoBucket(tasks[..|tasks| - 1], key);
    }
  }

  // ----- Sorting -----

  ghost predicate Ascending(buckets: seq<Bucket>)
  {
    forall i, j | 0 <= i < j < |buckets| :: buckets[i].key.hour <= buckets[j].key.hour
  }

  /** Ascending but for the place j, whose bucket is still on its way down to where it belongs. */
  ghost predicate AscendingBut(buckets: seq<Bucket>, j: nat)
  {
    && (forall p, q | 0 <= p < q < |buckets| && p != j && q != j :: buckets[p].key.hour <= buckets[q].key.hour)
    && (forall q | j < q < |buckets| && j < |buckets| :: buckets[j].key.hour <= buckets[q].key.hour)
  }

  lemma SunkIsAscending(buckets: seq<Bucket>, j: nat)
    requires AscendingBut(buckets, j) && j < |buckets|
    requires j > 0 ==> buckets[j - 1].key.hour <= buckets[j].key.hour
    ensures Ascending(buckets)
  {
    forall p, q | 0 <= p < q < |buckets|
      ensures buckets[p].key.hour <= buckets[q].key.hour
    {
      if q == j && p < j - 1 {
        assert buckets[p].key.hour <= buckets[j - 1].key.hour;
      }
    }
  }

  function Swapped(buckets: seq<Bucket>, j: nat): seq<Bucket>
    requires 0 < j < |buckets|
  {
    buckets[j := buckets[j - 1]][j - 1 := buckets[j]]
  }

  lemma SwapSinks(buckets: seq<Bucket>, i: nat, j: nat)
    requires 0 < j <= i < |buckets| && AscendingBut(buckets[..i + 1], j)
             && buckets[j].key.hour < buckets[j - 1].key.hour
    ensures AscendingBut(Swapped(buckets, j)[..i + 1], j - 1)
    ensures Swapped(buckets, j)[i + 1..] == buckets[i + 1..]
    ensures multiset(Swapped(buckets, j)) == multiset(buckets)
  {
    var s := buckets[..i + 1];
    assert s[j] == buckets[j] && s[j - 1] == buckets[j - 1];
    assert Swapped(buckets, j)[..i + 1] == Swapped(s, j);
  }

  /** The bucket at i moves down by swaps until the one before it is not later. */
  method SinkBucket(a: array<Bucket>, i: nat)
    requires i < a.Length && Ascending(a[..i])
    modifies a
    ensures Ascending(a[..i + 1])
    ensures a[i + 1..] == old(a[i + 1..])
    ensures multiset(a[..]) == multiset(old(a[..]))
  {
    var j := i;
    assert a[..][..i + 1] == a[..i] + [a[i]];
    while j > 0 && a[j].key.hour < a[j - 1].key.hour
      invariant 0 <= j <= i
      invariant AscendingBut(a[..][..i + 1], j)
      invariant a[..][i + 1..] == old(a[i + 1..])
      invariant multiset(a[..]) == multiset(old(a[..]))
    {
      SwapSinks(a[..], i, j);
      ghost var swapped := Swapped(a[..], j);
      a[j], a[j - 1] := a[j - 1], a[j];
      assert a[..] == swapped;
      j := j - 1;
    }
    SunkIsAscending(a[..][..i + 1], j);
    assert a[..][..i + 1] == a[..i + 1] && a[..][i + 1..] == a[i + 1..];
  }

  method SortHourlyBuckets(a: array<Bucket>)
    modifies a
    ensures Ascending(a[..])
    ensures multiset(a[..]) == multiset(old(a[..]))
  {
    if a.Length > 0 {
      var i := 1;
      while i < a.Length
        invariant 1 <= i <= a.Length
        invariant Ascending(a[..i])
        invariant multiset(a[..]) == multiset(old(a[..]))
      {
        SinkBucket(a, i);
        i := i + 1;
      }
      assert a[..a.Length] == a[..];
    }
  }

  // ----- The list of a snapshot -----

  /** One bucket for each key of the map, in the order of their hours. */
  ghost predicate Lists(buckets: seq<Bucket>, hourly: map<Key, Bucket>)
  {
    && Ascending(buckets)
    && (forall i, j | 0 <= i < j < |buckets| :: buckets[i].key != buckets[j].key)
    && (forall b | b in buckets :: b.key in hourly && b == hourly[b.key].(key := b.key))
    && (forall key | key in hourly :: hourly[key].(key := key) in buckets)
  }

  /** `order` is the order in which the map is iterated, which the language leaves open. */
  method BuildHourlyBuckets(hourly: map<Key, Bucket>, order: seq<Key>) returns (a: array<Bucket>)
    requires forall key :: key in order <==> key in hourly
    requires forall i, j | 0 <= i < j < |order| :: order[i] != order[j]
    ensures Lists(a[..], hourly)
  {
    var buckets: seq<Bucket> := [];
    for i := 0 to |order|
      invariant |buckets| == i
      invariant forall k | 0 <= k < i :: order[k] in hourly && buckets[k] == hourly[order[k]].(key := order[k])
    {
      assert order[i] in hourly;
      buckets := buckets + [hourly[order[i]].(key := order[i])];
    }
    a := new Bucket[|buckets|](i requires 0 <= i < |buckets| => buckets[i]);
    assert a[..] == buckets;
    SortHourlyBuckets(a);
    forall key | key in hourly
      ensures hourly[key].(key := key) in buckets
    {
      var k :| 0 <= k < |order| && order[k] == key;
      assert buckets[k] == hourly[key].(key := key);
    }
    SortedLists(buckets, a[..], hourly);
  }

  lemma TwiceInMultiset(buckets: seq<Bucket>, i: nat, j: nat)
    requires i < j < |buckets| && buckets[i] == buckets[j]
    ensures multiset(buckets)[buckets[i]] >= 2
  {
    assert buckets == buckets[..j] + buckets[j..];
    assert buckets[i] == buckets[..j][i] && buckets[i] == buckets[j..][0];
  }

  lemma {:induction false} OnceInMultiset(buckets: seq<Bucket>, b: Bucket)
    requires forall i, j | 0 <= i < j < |buckets| :: buckets[i] != buckets[j]
    ensures multiset(buckets)[b] <= 1
  {
    if buckets != [] {
      var init, last := buckets[..|buckets| - 1], buckets[|buckets| - 1];
      assert buckets == init + [last];
      OnceInMultiset(init, b);
    }
  }

  lemma SortedLists(buckets: seq<Bucket>, sorted: seq<Bucket>, hourly: map<Key, Bucket>)
    requires multiset(sorted) == multiset(buckets) && Ascending(sorted)
    requires forall i, j | 0 <= i < j < |buckets| :: buckets[i].key != buckets[j].key
    requires forall b | b in buckets :: b.key in hourly && b == hourly[b.key].(key := b.key)
    requires forall key | key in hourly :: hourly[key].(key := key) in buckets
    ensures Lists(sorted, hourly)
  {
    forall b
      ensures b in sorted <==> b in buckets
    {
      assert b in sorted <==> b in multiset(sorted);
      assert b in buckets <==> b in multiset(buckets);
    }
    forall i, j | 0 <= i < j < |sorted|
      ensures sorted[i].key != sorted[j].key
    {
      assert sorted[i] in sorted && sorted[j] in sorted;
      if sorted[i].key == sorted[j].key {
        TwiceInMultiset(sorted, i, j);
        OnceInMultiset(buckets, sorted[i]);
      }
    }
  }

  // ----- One bucket an hour -----

  ghost predicate StrictlyAscending(buckets: seq<Bucket>)
  {
    forall i, j | 0 <= i < j < |buckets| :: buckets[i].key.hour < buckets[j].key.hour
  }

  /** Tasks of the same hour carry the same location. */
  ghost predicate OneLocationAnHour(tasks: seq<Task>)
  {
    forall t, u | t in tasks && u in tasks && Hour(t.timestamp) == Hour(u.timestamp) :: t.location == u.location
  }

  /** A snapshot lists each hour once if and only if any two tasks of the same hour have the same location. */
  lemma OneBucketAnHourIff(tasks: seq<Task>, hourly: map<Key, Bucket>, buckets: seq<Bucket>)
    requires IsHourly(hourly, tasks) && Lists(buckets, hourly)
    ensures StrictlyAscending(buckets) <==> OneLocationAnHour(tasks)
  {
    if StrictlyAscending(buckets) {
      forall t, u | t in tasks && u in tasks && Hour(t.timestamp) == Hour(u.timestamp)
        ensures t.location == u.location
      {
        var i, j := PlaceOf(tasks, hourly, buckets, t), PlaceOf(tasks, hourly, buckets, u);
        assert i == j;
      }
    } else {
      var i, j :| 0 <= i < j < |buckets| && buckets[i].key.hour == buckets[j].key.hour;
      assert buckets[i] in buckets && buckets[j] in buckets;
      var t :| t in tasks && KeyOf(t) == buckets[i].key;
      var u :| u in tasks && KeyOf(u) == buckets[j].key;
    }
  }

  ghost function PlaceOf(tasks: seq<Task>, hourly: map<Key, Bucket>, buckets: seq<Bucket>, task: Task): (i: nat)
    requires IsHourly(hourly, tasks) && Lists(buckets, hourly) && task in tasks
    ensures i < |buckets| && buckets[i].key == KeyOf(task)
  {
    assert IsKeyOf(tasks, KeyOf(task));
    var b := hourly[KeyOf(task)].(key := KeyOf(task));
    assert b in buckets;
    var i: nat :| i < |buckets| && buckets[i] == b;
    i
  }

  /** Two tasks of one hour in two locations make two buckets of that hour, with one task each. */
  lemma OneHourTwice(t: Task, u: Task, hourly: map<Key, Bucket>, buckets: seq<Bucket>)
    requires Hour(t.timestamp) == Hour(u.timestamp) && t.location != u.location
    requires IsHourly(hourly, [t, u]) && Lists(buckets, hourly)
    ensures exists i, j :: 0 <= i < |buckets| && 0 <= j < |buckets| && i != j
              && buckets[i].key == KeyOf(t) && buckets[j].key == KeyOf(u)
              && buckets[i].key.hour == buckets[j].key.hour
              && buckets[i].completed + buckets[i].failed == buckets[j].completed + buckets[j].failed == 1
  {
    var i, j := PlaceOf([t, u], hourly, buckets, t), PlaceOf([t, u], hourly, buckets, u);
    assert buckets[i] in buckets && buckets[j] in buckets;
    assert [t, u][..1] == [t] && [t][..0] == [];
    assert BucketOf([t], KeyOf(t)) == Grown(Bucket(KeyOf(t), 0, 0, 0, 0), t.data);
    assert BucketOf([t], KeyOf(u)) == Bucket(KeyOf(u), 0, 0, 0, 0);
  }

  // ----- Conservation -----

  function Plus(a: Bucket, b: Bucket): Bucket
  {
    Bucket(a.key, a.completed + b.completed, a.failed + b.failed, a.duration + b.duration, a.timed + b.timed)
  }

  const NOTHING := Bucket(Key(0, ""), 0, 0, 0, 0)

  /** What the buckets hold together; the key means nothing. */
  function Sum(buckets: seq<Bucket>): Bucket
  {
    if buckets == [] then NOTHING else Plus(Sum(buckets[..|buckets| - 1]), buckets[|buckets| - 1])
  }

  /** What the tasks of some keys come to. */
  function Within(tasks: seq<Task>, keys: set<Key>): Bucket
  {
    if tasks == [] then NOTHING
    else
      var b, last := Within(tasks[..|tasks| - 1], keys), tasks[|tasks| - 1];
      if KeyOf(last) in keys then Grown(b, last.data) else b
  }

  lemma {:induction false} OneMoreKey(tasks: seq<Task>, keys: set<Key>, key: Key)
    requires key !in keys
    ensures Within(tasks, keys + {key}) == Plus(Within(tasks, keys), BucketOf(tasks, key))
  {
    if tasks != [] {
      OneMoreKey(tasks[..|tasks| - 1], keys, key);
    }
  }

  ghost function KeysOf(buckets: seq<Bucket>): set<Key> { set i | 0 <= i < |buckets| :: buckets[i].key }

  lemma {:induction false} NoKeysNothing(tasks: seq<Task>)
    ensures Within(tasks, {}) == NOTHING
  {
    if tasks != [] {
      NoKeysNothing(tasks[..|tasks| - 1]);
    }
  }

  lemma {:induction false} SumIsWithin(tasks: seq<Task>, buckets: seq<Bucket>)
    requires forall i, j | 0 <= i < j < |buckets| :: buckets[i].key != buckets[j].key
    requires forall b | b in buckets :: b == BucketOf(tasks, b.key)
    ensures Sum(buckets) == Within(tasks, KeysOf(buckets))
  {
    if buckets == [] {
      assert KeysOf(buckets) == {};
      NoKeysNothing(tasks);
    } else {
      var init, last := buckets[..|buckets| - 1], buckets[|buckets| - 1];
      SumIsWithin(tasks, init);
      assert KeysOf(buckets) == KeysOf(init) + {last.key};
      OneMoreKey(tasks, KeysOf(init), last.key);
      assert last in buckets;
    }
  }

  lemma {:induction false} AllKeysIsTotal(tasks: seq<Task>, now: int, keys: set<Key>)
    requires forall t | t in tasks :: KeyOf(t) in keys
    ensures var (w, t) := (Within(tasks, keys), TotalsOf(tasks, now));
            w == Bucket(NOTHING.key, t.completed, t.failed, t.duration, t.timed)
  {
    if tasks != [] {
      assert tasks[|tasks| - 1] in tasks && forall t | t in tasks[..|tasks| - 1] :: t in tasks;
      AllKeysIsTotal(tasks[..|tasks| - 1], now, keys);
    }
  }

  /** The hourly buckets of a snapshot, in whatever order the map gave them, add up to its totals. */
  lemma BucketsAddUpToTotals(tasks: seq<Task>, now: int, hourly: map<Key, Bucket>, buckets: seq<Bucket>)
    requires IsHourly(hourly, tasks) && Lists(buckets, hourly)
    ensures var (sum, t) := (Sum(buckets), TotalsOf(tasks, now));
            && sum.completed == t.completed && sum.failed == t.failed
            && sum.duration == t.duration && sum.timed == t.timed
    ensures TotalsOf(tasks, now).completed + TotalsOf(tasks, now).failed == |tasks|
  {
    forall key | key in hourly
      ensures BucketOf(tasks, key).key == key
    {
      BucketKeepsKey(tasks, key);
    }
    SumIsWithin(tasks, buckets);
    forall t | t in tasks
      ensures KeyOf(t) in KeysOf(buckets)
    {
      var i := PlaceOf(tasks, hourly, buckets, t);
    }
    AllKeysIsTotal(tasks, now, KeysOf(buckets));
    EveryTaskCounts(tasks, now);
  }

  lemma {:induction false} BucketKeepsKey(tasks: seq<Task>, key: Key)
    ensures BucketOf(tasks, key).key == key
  {
    if tasks != [] {
      BucketKeepsKey(tasks[..|tasks| - 1], key);
    }
  }

  lemma {:induction false} EveryTaskCounts(tasks: seq<Task>, now: int)
    ensures TotalsOf(tasks, now).completed + TotalsOf(tasks, now).failed == |tasks|
    ensures TotalsOf(tasks, now).lastHour <= TotalsOf(tasks, now).completed
  {
    if tasks != [] {
      EveryTaskCounts(tasks[..|tasks| - 1], now);
    }
  }
}
