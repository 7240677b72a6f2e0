/**
 Stopping the daemon. Stop signals shutdown, closes the tracker, signals each agent's subprocess once, and
 waits for the supervisors: which subprocesses it misses, and how soon the supervisors are done.
 */
module Shutdown {
  import opened Prelude
  import opened RestartPolicy
  import opened Supervisor
  import opened SupervisorRuns
  import EA = EpicAssigner

  /** Shutdown is signalled and the tracker closed, as they are when Stop comes to the agents. */
  predicate Stopping(d: Daemon) { d.shared.shutdown && d.shared.tracker.closed }

  /** Nothing undoes the stop, whatever one agent does. */
  lemma AgentKeepsStopping(policy: Policy, cfg: AgentConfig, s: Shared, a: Agent, input: Input)
    ensures var s' := AgentStep(policy, cfg, s, a, input).shared;
            s'.shutdown == s.shutdown && s'.tracker.closed == s.tracker.closed
  {
  }

  /** Shutdown is signalled and the tracker closed exactly from the events on that say so. */
  lemma {:induction false} StopIsUnderWayIff(policy: Policy, cfg: seq<AgentConfig>, roles: map<string, Option<int>>,
        events: seq<Event>)
    ensures var s := Run(policy, cfg, roles, events).shared;
            && (s.shutdown <==> SignalShutdown in events)
            && (s.tracker.closed <==> CloseTracker in events)
  {
    if events != [] {
      var init, e := events[..|events| - 1], events[|events| - 1];
      var d := Run(policy, cfg, roles, init);
      assert events == init + [e];
      StopIsUnderWayIff(policy, cfg, roles, init);
      if e.Act? && e.i < |cfg| {
        AgentKeepsStopping(policy, cfg[e.i], d.shared, d.agents[e.i], e.input);
      }
    }
  }

  lemma StoppingStays(policy: Policy, cfg: seq<AgentConfig>, d: Daemon, e: Event)
    requires |d.agents| == |cfg| && Stopping(d)
    ensures Stopping(Step(policy, cfg, d, e))
  {
    if e.Act? && e.i < |cfg| {
      AgentKeepsStopping(policy, cfg[e.i], d.shared, d.agents[e.i], e.input);
    }
  }

  // ----- Subprocesses that Stop misses -----

  /** Past a granted Acquire and not yet at a subprocess; there is no look at the shutdown signal on the way. */
  predicate BeforeSpawn(pc: Pc) { pc.Assigning? || pc.GotEpic? || pc.Branching? || pc.Spawning? }

  /** A subprocess runs that Stop has not signalled. */
  predicate RunsUnsignalled(a: Agent) { a.pc.Running? && !a.pc.signalled }

  predicate IsSettled(a: Agent) { !BeforeSpawn(a.pc) && !RunsUnsignalled(a) }

  lemma StartStaysSettled(cfg: AgentConfig, s: Shared, a: Agent, input: Input)
    requires Starting(a.pc) && s.shutdown && s.tracker.closed && IsSettled(a)
    ensures IsSettled(StartStep(cfg, s, a, input).agent)
  {
  }

  lemma ExitStaysSettled(cfg: AgentConfig, s: Shared, a: Agent, input: Input)
    requires HasExited(a.pc) && IsSettled(a)
    ensures IsSettled(ExitStep(cfg, s, a, input).agent)
  {
  }

  lemma PauseStaysSettled(policy: Policy, cfg: AgentConfig, s: Shared, a: Agent, input: Input)
    requires !Starting(a.pc) && !HasExited(a.pc) && IsSettled(a)
    ensures IsSettled(PauseStep(policy, cfg, s, a, input).agent)
  {
  }

  lemma AgentStaysSettled(policy: Policy, cfg: AgentConfig, s: Shared, a: Agent, input: Input)
    requires s.shutdown && s.tracker.closed && IsSettled(a)
    ensures IsSettled(AgentStep(policy, cfg, s, a, input).agent)
  {
    if Starting(a.pc) {
      StartStaysSettled(cfg, s, a, input);
    } else if HasExited(a.pc) {
      ExitStaysSettled(cfg, s, a, input);
    } else {
      PauseStaysSettled(policy, cfg, s, a, input);
    }
  }

  lemma {:induction false} SettledThroughout(policy: Policy, cfg: seq<AgentConfig>, d: Daemon, more: seq<Event>, i: nat)
    requires |d.agents| == |cfg| && i < |cfg| && Stopping(d) && IsSettled(d.agents[i])
    ensures IsSettled(RunFrom(policy, cfg, d, more).agents[i])
    decreases |more|
  {
    if more != [] {
      var e := more[0];
      StoppingStays(policy, cfg, d, e);
      AgentAfterStep(policy, cfg, d, e, i);
      if e.Act? && e.i == i {
        AgentStaysSettled(policy, cfg[i], d.shared, d.agents[i], e.input);
      }
      SettledThroughout(policy, cfg, Step(policy, cfg, d, e), more[1..], i);
    }
  }

  const GOES_WELL := Input(true, EA.Answer(None, {}), None, 0, None, false, false)

  /** The steps from here to the subprocess, when the branch and the spawn succeed. */
  function SpawnEvents(i: nat, pc: Pc): seq<Event>
    requires BeforeSpawn(pc)
  {
    var act := Act(i, GOES_WELL);
    match pc
    case Assigning => [act, act, act, act]
    case GotEpic(_) => [act, act, act]
    case Branching(_) => [act, act]
    case Spawning(_) => [act]
  }

  lemma {:induction false} SpawnsUnsignalled(policy: Policy, cfg: seq<AgentConfig>, d: Daemon, i: nat)
    requires |d.agents| == |cfg| && i < |cfg| && BeforeSpawn(d.agents[i].pc)
    ensures RunsUnsignalled(RunFrom(policy, cfg, d, SpawnEvents(i, d.agents[i].pc)).agents[i])
    decreases |SpawnEvents(i, d.agents[i].pc)|
  {
    var events := SpawnEvents(i, d.agents[i].pc);
    var d' := Step(policy, cfg, d, events[0]);
    if d.agents[i].pc.Spawning? {
      assert events[1..] == [] && RunsUnsignalled(d'.agents[i]);
    } else {
      assert events[1..] == SpawnEvents(i, d'.agents[i].pc);
      SpawnsUnsignalled(policy, cfg, d', i);
    }
  }

  /** Some continuation leads to a subprocess of agent i that Stop has not signalled. */
  ghost predicate CanRunUnsignalled(policy: Policy, cfg: seq<AgentConfig>, d: Daemon, i: nat)
    requires |d.agents| == |cfg| && i < |cfg|
  {
    exists more :: RunsUnsignalled(RunFrom(policy, cfg, d, more).agents[i])
  }

  /**
   Exactly which subprocesses Stop misses: at the moment it comes to an agent, a subprocess of that agent
   can run later that was not signalled if and only if the agent is then between its slot and its spawn.
   */
  lemma StopMissesIff(policy: Policy, cfg: seq<AgentConfig>, d: Daemon, i: nat)
    requires |d.agents| == |cfg| && i < |cfg| && Stopping(d)
    ensures CanRunUnsignalled(policy, cfg, Step(policy, cfg, d, StopAgent(i)), i) <==> BeforeSpawn(d.agents[i].pc)
  {
    var stopped := Step(policy, cfg, d, StopAgent(i));
    if BeforeSpawn(d.agents[i].pc) {
      var more := SpawnEvents(i, stopped.agents[i].pc);
      SpawnsUnsignalled(policy, cfg, stopped, i);
      assert RunsUnsignalled(RunFrom(policy, cfg, stopped, more).agents[i]);
    } else {
      forall more
        ensures !RunsUnsignalled(RunFrom(policy, cfg, stopped, more).agents[i])
      {
        SettledThroughout(policy, cfg, stopped, more, i);
      }
    }
  }

  // ----- How soon the supervisors are done -----

  /** The steps a supervisor has left at most, once the stop is under way. */
  function StepsLeft(pc: Pc): nat
  {
    match pc
    case Assigning => 13
    case GotEpic(_) => 12
    case Branching(_) => 11
    case Spawning(_) => 10
    case Running(_) => 9
    case Exited => 8
    case GivingBackSlot => 7
    case Transition => 6
    case Reassigning => 5
    case FailedStart => 5
    case Switching(_) => 4
    case CountingError => 4
    case Deciding => 4
    case RollingBack => 3
    case Leaving => 3
    case Backoff => 3
    case ErrorBackoff => 3
    case Asleep => 3
    case AfterExit => 2
    case Top => 2
    case WantSlot => 2
    case Returning => 1
    case Gone => 0
  }

  lemma StartStepCounts(cfg: AgentConfig, s: Shared, a: Agent, input: Input)
    requires Starting(a.pc) && s.shutdown && s.tracker.closed && a.pc != Asleep
    ensures StepsLeft(StartStep(cfg, s, a, input).agent.pc) < StepsLeft(a.pc)
  {
  }

  lemma ExitStepCounts(cfg: AgentConfig, s: Shared, a: Agent, input: Input)
    requires HasExited(a.pc)
    ensures StepsLeft(ExitStep(cfg, s, a, input).agent.pc) < StepsLeft(a.pc)
  {
  }

  lemma PauseStepCounts(policy: Policy, cfg: AgentConfig, s: Shared, a: Agent, input: Input)
    requires !Starting(a.pc) && !HasExited(a.pc) && s.shutdown
    ensures var left := StepsLeft(PauseStep(policy, cfg, s, a, input).agent.pc);
            if a.pc.Gone? then left == 0 else left < StepsLeft(a.pc)
  {
  }

  lemma OwnStepCounts(policy: Policy, cfg: AgentConfig, s: Shared, a: Agent, input: Input)
    requires s.shutdown && s.tracker.closed && a.pc != Asleep
    ensures var left := StepsLeft(AgentStep(policy, cfg, s, a, input).agent.pc);
            if a.pc.Gone? then left == 0 else left < StepsLeft(a.pc)
  {
    if Starting(a.pc) {
      StartStepCounts(cfg, s, a, input);
    } else if HasExited(a.pc) {
      ExitStepCounts(cfg, s, a, input);
    } else {
      PauseStepCounts(policy, cfg, s, a, input);
    }
  }

  function OwnSteps(events: seq<Event>, i: nat): nat
  {
    if events == [] then 0 else (if events[0].Act? && events[0].i == i then 1 else 0) + OwnSteps(events[1..], i)
  }

  lemma {:induction false} StepsRunOut(policy: Policy, cfg: seq<AgentConfig>, d: Daemon, more: seq<Event>, i: nat)
    requires |d.agents| == |cfg| && i < |cfg| && Stopping(d) && SlotsSound(cfg, d)
    ensures StepsLeft(RunFrom(policy, cfg, d, more).agents[i].pc) <=
            Max(0, StepsLeft(d.agents[i].pc) - OwnSteps(more, i))
    decreases |more|
  {
    if more != [] {
      var e, d' := more[0], Step(policy, cfg, d, more[0]);
      StoppingStays(policy, cfg, d, e);
      SlotsSoundStep(policy, cfg, d, e);
      OneStepLess(policy, cfg, d, e, i);
      StepsRunOut(policy, cfg, d', more[1..], i);
    }
  }

  lemma OneStepLess(policy: Policy, cfg: seq<AgentConfig>, d: Daemon, e: Event, i: nat)
    requires |d.agents| == |cfg| && i < |cfg| && Stopping(d) && SlotsSound(cfg, d)
    ensures var own := if e.Act? && e.i == i then 1 else 0;
            StepsLeft(Step(policy, cfg, d, e).agents[i].pc) <= Max(0, StepsLeft(d.agents[i].pc) - own)
  {
    assert AgentSlotSound(cfg[i], d.shared, d.agents[i]);
    AgentAfterStep(policy, cfg, d, e, i);
    if e.Act? && e.i == i {
      OwnStepCounts(policy, cfg[i], d.shared, d.agents[i], e.input);
    }
  }

  /**
   Once shutdown is signalled and the tracker closed, a supervisor is gone after at most 13 steps of its own
   (the exit of its subprocess being one of them), whatever the others do in between.
   */
  lemma SupervisorIsSoonGone(policy: Policy, cfg: seq<AgentConfig>, roles: map<string, Option<int>>,
        events: seq<Event>, more: seq<Event>, i: nat)
    requires i < |cfg| && Stopping(Run(policy, cfg, roles, events)) && OwnSteps(more, i) >= 13
    ensures Run(policy, cfg, roles, events + more).agents[i].pc == Gone
  {
    SlotsAreConserved(policy, cfg, roles, events);
    RunGoesOn(policy, cfg, roles, events, more);
    GoneAfterSteps(policy, cfg, Run(policy, cfg, roles, events), more, i);
  }

  lemma GoneAfterSteps(policy: Policy, cfg: seq<AgentConfig>, d: Daemon, more: seq<Event>, i: nat)
    requires |d.agents| == |cfg| && i < |cfg| && Stopping(d) && SlotsSound(cfg, d) && OwnSteps(more, i) >= 13
    ensures RunFrom(policy, cfg, d, more).agents[i].pc == Gone
  {
    StepsRunOut(policy, cfg, d, more, i);
    assert StepsLeft(d.agents[i].pc) <= 13;
  }

  /** And when each has had its steps, no slot is counted and no epic assigned. */
  lemma StopLeavesNothingBehind(policy: Policy, cfg: seq<AgentConfig>, roles: map<string, Option<int>>,
        events: seq<Event>, more: seq<Event>)
    requires ValidConfig(cfg) && Stopping(Run(policy, cfg, roles, events))
    requires forall i | 0 <= i < |cfg| :: OwnSteps(more, i) >= 13
    ensures var d := Run(policy, cfg, roles, events + more);
            d.shared.assignments == map[] && forall role :: d.shared.tracker.Count(role) == 0
  {
    forall i | 0 <= i < |cfg|
      ensures Run(policy, cfg, roles, events + more).agents[i].pc == Gone
    {
      SupervisorIsSoonGone(policy, cfg, roles, events, more, i);
    }
    NothingIsLeftBehind(policy, cfg, roles, events + more);
  }
}
