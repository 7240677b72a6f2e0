/** Pruning cannot be observed, and what the working time of an agent adds up to. */
module MetricsTheorems {
  import opened Prelude
  import opened Metrics

  // ----- The window -----

  lemma {:induction false} SinceTwice<T>(entries: seq<Stamped<T>>, cutoff: int, later: int)
    requires cutoff <= later
    ensures Since(Since(entries, cutoff), later) == Since(entries, later)
  {
    if entries != [] {
      var init, last := entries[..|entries| - 1], entries[|entries| - 1];
      SinceTwice(init, cutoff, later);
      if last.timestamp >= cutoff {
        assert (Since(init, cutoff) + [last])[..|Since(init, cutoff)|] == Since(init, cutoff);
      } else {
        assert Since(entries, cutoff) == Since(init, cutoff);
      }
    }
  }

  lemma SinceAppend<T>(entries: seq<Stamped<T>>, entry: Stamped<T>, cutoff: int)
    ensures Since(entries + [entry], cutoff) ==
            Since(entries, cutoff) + if entry.timestamp >= cutoff then [entry] else []
  {
    assert (entries + [entry])[..|entries|] == entries;
  }

  // ----- Pruning is unobservable -----

  datatype Op = Tick(to: int) | Observe(e: Event) | Prune | Snapshot

  datatype System = System(store: Store, now: int)

  function Done(s: System, retention: int, op: Op): System
  {
    match op
    case Tick(to) => if to < s.now then s else s.(now := to)
    case Observe(e) => s.(store := Observed(s.store, e))
    case Prune => s.(store := Pruned(s.store, s.now - retention))
    case Snapshot => s.(store := Copy(s.store, s.now, retention).store)
  }

  function After(s: System, retention: int, ops: seq<Op>): System
  {
    if ops == [] then s else Done(After(s, retention, ops[..|ops| - 1]), retention, ops[|ops| - 1])
  }

  /** The operations with every Prune and Snapshot taken out. */
  function Essential(ops: seq<Op>): seq<Op>
  {
    if ops == [] then []
    else
      var op := ops[|ops| - 1];
      Essential(ops[..|ops| - 1]) + if op == Prune || op == Snapshot then [] else [op]
  }

  /** Equal in everything a snapshot can see from now on. */
  ghost predicate Alike(s: System, s': System, retention: int)
  {
    && s.now == s'.now
    && s.store.(tasks := [], agents := []) == s'.store.(tasks := [], agents := [])
    && forall cutoff | cutoff >= s.now - retention :: SameSince(s.store, s'.store, cutoff)
  }

  ghost predicate SameSince(s: Store, s': Store, cutoff: int)
  {
    Since(s.tasks, cutoff) == Since(s'.tasks, cutoff) && Since(s.agents, cutoff) == Since(s'.agents, cutoff)
  }

  lemma PrunedIsAlike(s: System, s': System, retention: int)
    requires Alike(s, s', retention)
    ensures Alike(s.(store := Pruned(s.store, s.now - retention)), s', retention)
  {
    var t := Pruned(s.store, s.now - retention);
    forall cutoff | cutoff >= s.now - retention
      ensures SameSince(t, s'.store, cutoff)
    {
      assert SameSince(s.store, s'.store, cutoff);
      SinceTwice(s.store.tasks, s.now - retention, cutoff);
      SinceTwice(s.store.agents, s.now - retention, cutoff);
    }
  }

  lemma ObservedIsAlike(s: System, s': System, retention: int, e: Event)
    requires Alike(s, s', retention)
    ensures Alike(Done(s, retention, Observe(e)), Done(s', retention, Observe(e)), retention)
  {
    var t, t' := Observed(s.store, e), Observed(s'.store, e);
    forall cutoff | cutoff >= s.now - retention
      ensures SameSince(t, t', cutoff)
    {
      assert SameSince(s.store, s'.store, cutoff);
      match e
      case TaskEvent(timestamp, location, task) =>
        SinceAppend(s.store.tasks, Stamped(timestamp, location, task), cutoff);
        SinceAppend(s'.store.tasks, Stamped(timestamp, location, task), cutoff);
      case AgentEvent(timestamp, location, agent) =>
        SinceAppend(s.store.agents, Stamped(timestamp, location, agent), cutoff);
        SinceAppend(s'.store.agents, Stamped(timestamp, location, agent), cutoff);
      case Ignored =>
    }
    assert s.store.utilization == s'.store.utilization;
  }

  lemma TickIsAlike(s: System, s': System, retention: int, later: int)
    requires Alike(s, s', retention)
    ensures Alike(Done(s, retention, Tick(later)), Done(s', retention, Tick(later)), retention)
  {
  }

  lemma OpIsAlike(s: System, s': System, retention: int, op: Op)
    requires Alike(s, s', retention)
    ensures op == Prune || op == Snapshot ==> Alike(Done(s, retention, op), s', retention)
    ensures op != Prune && op != Snapshot ==> Alike(Done(s, retention, op), Done(s', retention, op), retention)
  {
    match op
    case Tick(later) => TickIsAlike(s, s', retention, later);
    case Observe(e) => ObservedIsAlike(s, s', retention, e);
    case Prune => PrunedIsAlike(s, s', retention);
    case Snapshot => PrunedIsAlike(s, s', retention);
  }

  lemma {:induction false} EssentialIsAlike(s: System, retention: int, ops: seq<Op>)
    ensures Alike(After(s, retention, ops), After(s, retention, Essential(ops)), retention)
  {
    if ops != [] {
      var init, op := ops[..|ops| - 1], ops[|ops| - 1];
      EssentialIsAlike(s, retention, init);
      OpIsAlike(After(s, retention, init), After(s, retention, Essential(init)), retention, op);
      if op == Prune || op == Snapshot {
        assert Essential(ops) == Essential(init);
      } else {
        assert Essential(ops)[..|Essential(ops)| - 1] == Essential(init);
      }
    }
  }

  lemma AlikeLooksTheSame(s: System, s': System, retention: int)
    requires Alike(s, s', retention)
    ensures Copy(s.store, s.now, retention) == Copy(s'.store, s'.now, retention)
  {
    assert SameSince(s.store, s'.store, s.now - retention);
  }

  /**
   Two lives of a store that differ only in when it was pruned and looked at show the same to every
   later snapshot, for events of any order and any age.
   */
  lemma PruningIsUnobservable(s: System, retention: int, ops: seq<Op>, ops': seq<Op>)
    requires Essential(ops) == Essential(ops')
    ensures var (end, end') := (After(s, retention, ops), After(s, retention, ops'));
            Copy(end.store, end.now, retention) == Copy(end'.store, end'.now, retention)
  {
    EssentialIsAlike(s, retention, ops);
    EssentialIsAlike(s, retention, ops');
    AlikeLooksTheSame(After(s, retention, ops), After(s, retention, Essential(ops)), retention);
    AlikeLooksTheSame(After(s, retention, ops'), After(s, retention, Essential(ops)), retention);
  }

  // ----- Working time -----

  /** What counts for working time in an agent's event: when, and whether it starts work. */
  datatype Mark = Mark(timestamp: int, starts: bool)

  function UtilAfter(marks: seq<Mark>): Util
  {
    if marks == [] then IDLE
    else Noted(UtilAfter(marks[..|marks| - 1]), marks[|marks| - 1].starts, marks[|marks| - 1].timestamp)
  }

  function MarksOf(events: seq<Event>, agent: string): seq<Mark>
  {
    if events == [] then []
    else
      var e := events[|events| - 1];
      MarksOf(events[..|events| - 1], agent)
      + if e.AgentEvent? && e.agent.agent == agent then [Mark(e.timestamp, e.agent.kind != Stopped)] else []
  }

  function ObservedAll(s: Store, events: seq<Event>): Store
  {
    if events == [] then s else Observed(ObservedAll(s, events[..|events| - 1]), events[|events| - 1])
  }

  /** The store keeps, per agent, what that agent's own events make. */
  lemma {:induction false} UtilizationIsPerAgent(events: seq<Event>, agent: string)
    ensures UtilOf(ObservedAll(EMPTY, events), agent) == UtilAfter(MarksOf(events, agent))
  {
    if events != [] {
      var init, e := events[..|events| - 1], events[|events| - 1];
      UtilizationIsPerAgent(init, agent);
      if e.AgentEvent? && e.agent.agent == agent {
        var mark := Mark(e.timestamp, e.agent.kind != Stopped);
        assert (MarksOf(init, agent) + [mark])[..|MarksOf(init, agent)|] == MarksOf(init, agent);
      } else {
        assert MarksOf(events, agent) == MarksOf(init, agent);
      }
    }
  }

  /** Events in time order, none at the zero time. */
  ghost predicate Ordered(marks: seq<Mark>)
  {
    && (forall i | 0 <= i < |marks| :: marks[i].timestamp > ZERO_TIME)
    && forall i, j | 0 <= i <= j < |marks| :: marks[i].timestamp <= marks[j].timestamp
  }

  predicate InInterval(marks: seq<Mark>, i: int, x: int)
  {
    0 <= i < |marks| - 1 && marks[i].starts && marks[i].timestamp <= x < marks[i + 1].timestamp
  }

  predicate InClosedWork(marks: seq<Mark>, x: int)
  {
    exists i :: 0 <= i < |marks| && InInterval(marks, i, x)
  }

  /** The instants between a start and the agent's next event. */
  ghost function ClosedWork(marks: seq<Mark>): set<int>
  {
    if marks == [] then {} else set x | 0 <= x < marks[|marks| - 1].timestamp && InClosedWork(marks, x)
  }

  /** The instants from `lo` up to but not including `hi`. */
  ghost function Interval(lo: int, hi: int): set<int>
    decreases hi - lo
  {
    if lo >= hi then {} else Interval(lo, hi - 1) + {hi - 1}
  }

  lemma {:induction false} IntervalSize(lo: int, hi: int)
    ensures |Interval(lo, hi)| == Max(hi - lo, 0)
    ensures forall x :: x in Interval(lo, hi) <==> lo <= x < hi
    decreases hi - lo
  {
    if lo < hi {
      IntervalSize(lo, hi - 1);
    }
  }

  lemma InClosedWorkGrows(init: seq<Mark>, mark: Mark, x: int)
    requires init != [] && Ordered(init + [mark])
    ensures var last := init[|init| - 1];
            && (InClosedWork(init + [mark], x) <==> InClosedWork(init, x) || InInterval([last, mark], 0, x))
            && (InClosedWork(init, x) ==> 0 <= x < last.timestamp)
  {
    var marks, last := init + [mark], init[|init| - 1];
    if i :| 0 <= i < |init| && InInterval(init, i, x) {
      assert InInterval(marks, i, x) && marks[i + 1] == init[i + 1] && marks[|init| - 1] == last;
      assert marks[i + 1].timestamp <= marks[|init| - 1].timestamp;
    }
    if InInterval([last, mark], 0, x) {
      assert InInterval(marks, |init| - 1, x);
    }
    if i :| 0 <= i < |marks| && InInterval(marks, i, x) {
      if i < |init| - 1 {
        assert InInterval(init, i, x);
      } else {
        assert InInterval([last, mark], 0, x);
      }
    }
  }

  lemma ClosedWorkGrowsAt(init: seq<Mark>, mark: Mark, x: int)
    requires init != [] && Ordered(init + [mark])
    ensures var last := init[|init| - 1];
            var added := if last.starts then Interval(last.timestamp, mark.timestamp) else {};
            && (x in ClosedWork(init + [mark]) <==> x in ClosedWork(init) || x in added)
            && !(x in ClosedWork(init) && x in added)
  {
    var marks, last := init + [mark], init[|init| - 1];
    IntervalSize(last.timestamp, mark.timestamp);
    assert marks[|init| - 1] == last && marks[|init|] == mark;
    InClosedWorkGrows(init, mark, x);
  }

  lemma ClosedWorkGrows(init: seq<Mark>, mark: Mark)
    requires init != [] && Ordered(init + [mark])
    ensures var last := init[|init| - 1];
            var added := if last.starts then Interval(last.timestamp, mark.timestamp) else {};
            ClosedWork(init + [mark]) == ClosedWork(init) + added && ClosedWork(init) !! added
  {
    var last := init[|init| - 1];
    var added := if last.starts then Interval(last.timestamp, mark.timestamp) else {};
    forall x
      ensures x in ClosedWork(init + [mark]) <==> x in ClosedWork(init) || x in added
      ensures !(x in ClosedWork(init) && x in added)
    {
      ClosedWorkGrowsAt(init, mark, x);
    }
  }

  /** The agent's state is what its closed work and its last event make it. */
  ghost predicate StateIsWork(u: Util, marks: seq<Mark>)
  {
    && u.workDuration == |ClosedWork(marks)|
    && (marks == [] ==> u == IDLE)
    && (marks != [] ==>
          && u.isWorking == marks[|marks| - 1].starts
          && (u.isWorking ==> u.lastStart == marks[|marks| - 1].timestamp))
  }

  lemma FirstMark(mark: Mark)
    ensures StateIsWork(Noted(IDLE, mark.starts, mark.timestamp), [mark])
  {
    assert ClosedWork([mark]) == {};
  }

  lemma NextMark(u: Util, init: seq<Mark>, mark: Mark)
    requires init != [] && Ordered(init + [mark]) && StateIsWork(u, init)
    ensures StateIsWork(Noted(u, mark.starts, mark.timestamp), init + [mark])
  {
    OneMoreInterval(init, mark);
    assert init[|init| - 1] == (init + [mark])[|init| - 1];
  }

  /** For events in time order, workDuration is the total length of the agent's closed working intervals. */
  lemma {:induction false} WorkDurationIsClosedWork(marks: seq<Mark>)
    requires Ordered(marks)
    ensures StateIsWork(UtilAfter(marks), marks)
  {
    if marks == [] {
      assert ClosedWork(marks) == {};
    } else {
      var init, mark := marks[..|marks| - 1], marks[|marks| - 1];
      assert marks == init + [mark];
      WorkDurationIsClosedWork(init);
      if init == [] {
        FirstMark(mark);
      } else {
        NextMark(UtilAfter(init), init, mark);
      }
    }
  }

  lemma OneMoreInterval(init: seq<Mark>, mark: Mark)
    requires init != [] && Ordered(init + [mark])
    ensures |ClosedWork(init + [mark])| == |ClosedWork(init)| +
            if init[|init| - 1].starts then mark.timestamp - init[|init| - 1].timestamp else 0
  {
    var last := init[|init| - 1];
    assert (init + [mark])[|init| - 1] == last && (init + [mark])[|init|] == mark;
    ClosedWorkGrows(init, mark);
    IntervalSize(last.timestamp, mark.timestamp);
  }

  // ----- Events out of order -----

  /** The time from each start to the agent's next event, in the order they were observed; it may run backwards. */
  function Gaps(marks: seq<Mark>): int
  {
    if |marks| <= 1 then 0
    else
      var last, next := marks[|marks| - 2], marks[|marks| - 1];
      Gaps(marks[..|marks| - 1])
      + if last.starts && last.timestamp != ZERO_TIME then next.timestamp - last.timestamp else 0
  }

  /** Whatever the order of the events, workDuration is what the gaps after starts add up to. */
  lemma {:induction false} WorkDurationIsGaps(marks: seq<Mark>)
    ensures UtilAfter(marks).workDuration == Gaps(marks)
    ensures marks != [] ==>
              && UtilAfter(marks).isWorking == marks[|marks| - 1].starts
              && (marks[|marks| - 1].starts ==> UtilAfter(marks).lastStart == marks[|marks| - 1].timestamp)
  {
    if marks != [] {
      WorkDurationIsGaps(marks[..|marks| - 1]);
    }
  }

  /** A stop observed after a start that is later makes the working time negative, and the agent is not reported. */
  lemma LateStopIsNegative(began: int, ended: int, now: int, retention: int)
    requires ZERO_TIME < ended < began && retention > 0
    ensures var u := UtilAfter([Mark(began, true), Mark(ended, false)]);
            u.workDuration == ended - began < 0 && ReportedWork(u, now, retention) < 0
  {
    var marks := [Mark(began, true), Mark(ended, false)];
    assert marks[..1] == [Mark(began, true)];
    WorkDurationIsGaps(marks);
  }

  // ----- The reported share -----

  /** The instants of the retention window, which ends before `now`, in which the agent worked. */
  ghost function WindowWork(marks: seq<Mark>, now: int, retention: int): set<int>
  {
    set x | now - retention <= x < now && Working(marks, x)
  }

  /** Working at x: in a closed interval, or after a last event that started work. */
  ghost predicate Working(marks: seq<Mark>, x: int)
  {
    x in ClosedWork(marks) || (marks != [] && marks[|marks| - 1].starts && marks[|marks| - 1].timestamp <= x)
  }

  ghost function OldWork(marks: seq<Mark>, now: int, retention: int): set<int>
  {
    set x | x in ClosedWork(marks) && x < now - retention
  }

  lemma ClosedWorkSplits(marks: seq<Mark>, now: int, retention: int)
    requires marks != [] ==> marks[|marks| - 1].timestamp <= now
    ensures var recent := set x | x in ClosedWork(marks) && x >= now - retention;
            && |ClosedWork(marks)| == |OldWork(marks, now, retention)| + |recent|
            && (forall x | x in recent :: x < now)
  {
    var recent := set x | x in ClosedWork(marks) && x >= now - retention;
    assert ClosedWork(marks) == OldWork(marks, now, retention) + recent && OldWork(marks, now, retention) !! recent;
  }

  lemma WindowWorkSplits(marks: seq<Mark>, now: int, retention: int)
    requires marks != [] ==> marks[|marks| - 1].timestamp <= now
    requires retention > 0
    ensures var recent := set x | x in ClosedWork(marks) && x >= now - retention;
            var open := if marks != [] && marks[|marks| - 1].starts
                        then now - Max(marks[|marks| - 1].timestamp, now - retention) else 0;
            |WindowWork(marks, now, retention)| == |recent| + open
  {
    var recent := set x | x in ClosedWork(marks) && x >= now - retention;
    if marks != [] && marks[|marks| - 1].starts {
      var lo := Max(marks[|marks| - 1].timestamp, now - retention);
      IntervalSize(lo, now);
      assert WindowWork(marks, now, retention) == recent + Interval(lo, now) && recent !! Interval(lo, now);
    } else {
      assert WindowWork(marks, now, retention) == recent;
    }
  }

  lemma ReportedIsOldPlusWindow(marks: seq<Mark>, now: int, retention: int)
    requires Ordered(marks) && retention > 0
    requires marks != [] ==> marks[|marks| - 1].timestamp <= now
    ensures ReportedWork(UtilAfter(marks), now, retention) ==
            Min(|OldWork(marks, now, retention)| + |WindowWork(marks, now, retention)|, retention)
  {
    WorkDurationIsClosedWork(marks);
    ClosedWorkSplits(marks, now, retention);
    WindowWorkSplits(marks, now, retention);
  }

  /**
   The documented meaning of the report is the work inside the retention window. It holds if and only
   if no closed work is older than the window or the agent worked through the whole window: the
   accumulated duration is never pruned, so older work is otherwise counted again and again.
   */
  lemma ReportIsWindowWorkIff(marks: seq<Mark>, now: int, retention: int)
    requires Ordered(marks) && retention > 0
    requires marks != [] ==> marks[|marks| - 1].timestamp <= now
    ensures ReportedWork(UtilAfter(marks), now, retention) == |WindowWork(marks, now, retention)| <==>
            OldWork(marks, now, retention) == {} || |WindowWork(marks, now, retention)| == retention
  {
    ReportedIsOldPlusWindow(marks, now, retention);
    WindowWorkFits(marks, now, retention);
    assert |OldWork(marks, now, retention)| == 0 <==> OldWork(marks, now, retention) == {};
  }

  /** An agent that worked once, before the window, and has been idle since is reported as working. */
  lemma OldWorkIsReported(began: int, ended: int, now: int, retention: int)
    requires ZERO_TIME < began < ended <= now - retention && retention > 0
    ensures var marks := [Mark(began, true), Mark(ended, false)];
            && ReportedWork(UtilAfter(marks), now, retention) == Min(ended - began, retention) > 0
            && WindowWork(marks, now, retention) == {}
  {
    var marks := [Mark(began, true), Mark(ended, false)];
    var first := marks[..1];
    assert marks == first + [Mark(ended, false)] && first[..0] == [];
    assert UtilAfter(first) == Util(began, 0, true);
    OneMoreInterval(first, Mark(ended, false));
    assert ClosedWork(first) == {};
    WorkDurationIsClosedWork(marks);
    forall x
      ensures x !in WindowWork(marks, now, retention)
    {
    }
  }

  lemma WindowWorkFits(marks: seq<Mark>, now: int, retention: int)
    requires retention > 0
    ensures |WindowWork(marks, now, retention)| <= retention
  {
    var window := Interval(now - retention, now);
    IntervalSize(now - retention, now);
    SubsetSize(WindowWork(marks, now, retention), window);
  }

  lemma SubsetSize(a: set<int>, b: set<int>)
    requires a <= b
    ensures |a| <= |b|
  {
    assert b == a + (b - a);
  }

  /** Work begun before the window counts for the whole window, less what the closed work falls short of zero. */
  lemma LongRunFillsTheWindow(u: Util, now: int, retention: int)
    requires u.isWorking && ZERO_TIME != u.lastStart <= now - retention && retention > 0
    ensures ReportedWork(u, now, retention) == retention + Min(u.workDuration, 0)
  {
  }
}
