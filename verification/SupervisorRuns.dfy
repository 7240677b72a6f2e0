/**
 Single supervisors over whole runs of the daemon: what a failed start leads to, why a supervisor returns,
 and what becomes of an exhausted epic.
 */
module SupervisorRuns {
  import opened Prelude
  import opened RestartPolicy
  import opened Supervisor
  import CT = ConcurrencyTracker
  import EA = EpicAssigner
  import RestartLaws

  function RunFrom(policy: Policy, cfg: seq<AgentConfig>, d: Daemon, events: seq<Event>): (d': Daemon)
    requires |d.agents| == |cfg|
    ensures |d'.agents| == |cfg|
    decreases |events|
  {
    if events == [] then d else RunFrom(policy, cfg, Step(policy, cfg, d, events[0]), events[1..])
  }

  lemma {:induction false} RunGoesOn(policy: Policy, cfg: seq<AgentConfig>, roles: map<string, Option<int>>,
        events: seq<Event>, more: seq<Event>)
    ensures Run(policy, cfg, roles, events + more) == RunFrom(policy, cfg, Run(policy, cfg, roles, events), more)
    decreases |more|
  {
    if more == [] {
      assert events + more == events;
    } else {
      var longer := events + [more[0]];
      assert longer[..|events|] == events && longer + more[1..] == events + more;
      RunGoesOn(policy, cfg, roles, longer, more[1..]);
    }
  }

  lemma {:induction false} SoundFrom(policy: Policy, cfg: seq<AgentConfig>, d: Daemon, events: seq<Event>)
    requires |d.agents| == |cfg| && SlotsSound(cfg, d)
    ensures SlotsSound(cfg, RunFrom(policy, cfg, d, events))
    decreases |events|
  {
    if events != [] {
      SlotsSoundStep(policy, cfg, d, events[0]);
      SoundFrom(policy, cfg, Step(policy, cfg, d, events[0]), events[1..]);
    }
  }

  // ----- No subprocess without a slot -----

  /** The event in which agent i asks for a slot while the tracker is open and its role has room. */
  predicate TakesSlot(cfg: seq<AgentConfig>, d: Daemon, e: Event, i: nat)
    requires |d.agents| == |cfg| && i < |cfg|
  {
    && e.Act? && e.i == i && d.agents[i].pc.WantSlot?
    && !d.shared.tracker.closed && CT.HasRoom(d.shared.tracker, cfg[i].role)
  }

  lemma SlotIsTakenByAsking(policy: Policy, cfg: seq<AgentConfig>, d: Daemon, e: Event, i: nat)
    requires |d.agents| == |cfg| && i < |cfg| && SlotsSound(cfg, d)
    ensures !d.agents[i].holding && Step(policy, cfg, d, e).agents[i].holding ==> TakesSlot(cfg, d, e, i)
  {
    AgentAfterStep(policy, cfg, d, e, i);
    assert AgentSlotSound(cfg[i], d.shared, d.agents[i]);
    if e.Act? && e.i == i && !d.agents[i].pc.WantSlot? && !TouchesTracker(d.agents[i].pc) {
      OtherStepsLeaveTracker(policy, cfg[i], d.shared, d.agents[i], e.input);
    }
  }

  /** An agent without a slot comes to run a subprocess only by taking one on the way. */
  lemma {:induction false} SlotComesFirst(policy: Policy, cfg: seq<AgentConfig>, d: Daemon, more: seq<Event>, i: nat)
    requires |d.agents| == |cfg| && i < |cfg| && SlotsSound(cfg, d) && !d.agents[i].holding
    requires RunFrom(policy, cfg, d, more).agents[i].pc.Running?
    ensures exists k: nat :: k < |more| && TakesSlot(cfg, RunFrom(policy, cfg, d, more[..k]), more[k], i)
    decreases |more|
  {
    assert AgentSlotSound(cfg[i], d.shared, d.agents[i]);
    if more != [] {
      var d' := Step(policy, cfg, d, more[0]);
      SlotsSoundStep(policy, cfg, d, more[0]);
      if d'.agents[i].holding {
        SlotIsTakenByAsking(policy, cfg, d, more[0], i);
        assert TakesSlot(cfg, RunFrom(policy, cfg, d, more[..0]), more[0], i);
      } else {
        SlotComesFirst(policy, cfg, d', more[1..], i);
        var k: nat :| k < |more| - 1 && TakesSlot(cfg, RunFrom(policy, cfg, d', more[1..][..k]), more[1..][k], i);
        assert more[..k + 1][1..] == more[1..][..k];
        assert TakesSlot(cfg, RunFrom(policy, cfg, d, more[..k + 1]), more[k + 1], i);
      }
    }
  }

  // ----- Failed starts -----

  /** Events in which agent i has no step of its own. */
  predicate Idle(events: seq<Event>, i: nat)
  {
    forall k | 0 <= k < |events| :: !(events[k].Act? && events[k].i == i)
  }

  lemma {:induction false} OthersLeaveAgent(policy: Policy, cfg: seq<AgentConfig>, d: Daemon, others: seq<Event>,
        i: nat)
    requires |d.agents| == |cfg| && i < |cfg| && Idle(others, i)
    requires !d.agents[i].pc.Asleep? && !d.agents[i].pc.Running?
    ensures RunFrom(policy, cfg, d, others).agents[i] == d.agents[i]
    decreases |others|
  {
    if others != [] {
      AgentAfterStep(policy, cfg, d, others[0], i);
      assert forall k | 0 <= k < |others[1..]| :: others[1..][k] == others[k + 1];
      OthersLeaveAgent(policy, cfg, Step(policy, cfg, d, others[0]), others[1..], i);
    }
  }

  /** The start of a subprocess that fails: the switch to the branch, or the spawn. */
  predicate FailsToStart(d: Daemon, e: Event, i: nat)
    requires i < |d.agents|
  {
    e.Act? && e.i == i && !e.input.ok && (d.agents[i].pc.Branching? || d.agents[i].pc.Spawning?)
  }

  lemma FailureLeadsBack(policy: Policy, cfg: seq<AgentConfig>, d: Daemon, e: Event, i: nat, others: seq<Event>)
    requires |d.agents| == |cfg| && i < |cfg| && SlotsSound(cfg, d) && FailsToStart(d, e, i) && Idle(others, i)
    ensures var d1 := RunFrom(policy, cfg, Step(policy, cfg, d, e), others);
            SlotsSound(cfg, d1) && d.agents[i].holding && d1.agents[i] == d.agents[i].(pc := FailedStart)
  {
    var failed := Step(policy, cfg, d, e);
    assert AgentSlotSound(cfg[i], d.shared, d.agents[i]);
    SlotsSoundStep(policy, cfg, d, e);
    SoundFrom(policy, cfg, failed, others);
    OthersLeaveAgent(policy, cfg, failed, others, i);
  }

  lemma ErrorIsCounted(policy: Policy, cfg: seq<AgentConfig>, d: Daemon, i: nat, others: seq<Event>, input: Input)
    requires |d.agents| == |cfg| && i < |cfg| && d.agents[i].pc.CountingError? && Idle(others, i)
    ensures var (a, a') := (d.agents[i], Step(policy, cfg, RunFrom(policy, cfg, d, others), Act(i, input)).agents[i]);
            a' == a.(cycles := a.cycles + [SpawnError],
                     counters := a.counters.(restartCount := a.counters.restartCount + 1),
                     pc := if a.counters.restartCount < policy.MaxRetries() then ErrorBackoff else Returning)
  {
    OthersLeaveAgent(policy, cfg, d, others, i);
  }

  /**
   A switch or a spawn that fails starts no subprocess and leaves the worktree on the branch it was on.
   Whatever others do in between, the next step of the agent gives its slot back, and the one after counts
   one failed start.
   */
  lemma FailedStartIsCounted(policy: Policy, cfg: seq<AgentConfig>, d: Daemon, e: Event, i: nat,
        others: seq<Event>, input: Input, others': seq<Event>, input': Input)
    requires |d.agents| == |cfg| && i < |cfg| && SlotsSound(cfg, d) && FailsToStart(d, e, i)
    requires Idle(others, i) && Idle(others', i)
    ensures var a := d.agents[i];
            var d1 := RunFrom(policy, cfg, Step(policy, cfg, d, e), others);
            var d2 := Step(policy, cfg, d1, Act(i, input));
            var d3 := Step(policy, cfg, RunFrom(policy, cfg, d2, others'), Act(i, input'));
            && a.holding && d1.agents[i].holding && !d1.agents[i].pc.Running?
            && !d2.agents[i].holding && !d2.agents[i].pc.Running?
            && d2.shared.tracker.Count(cfg[i].role) == d1.shared.tracker.Count(cfg[i].role) - 1
            && d3.agents[i].cycles == a.cycles + [SpawnError] && !d3.agents[i].holding
            && d3.agents[i].counters == a.counters.(restartCount := a.counters.restartCount + 1)
            && d3.agents[i].branch == a.branch
            && (d3.agents[i].pc == ErrorBackoff <==> a.counters.restartCount < policy.MaxRetries())
            && (d3.agents[i].pc == Returning <==> a.counters.restartCount >= policy.MaxRetries())
  {
    FailureLeadsBack(policy, cfg, d, e, i, others);
    var d1 := RunFrom(policy, cfg, Step(policy, cfg, d, e), others);
    SlotIsGivenBack(policy, cfg, d1, i, input);
    ErrorIsCounted(policy, cfg, Step(policy, cfg, d1, Act(i, input)), i, others', input');
  }

  lemma SlotIsGivenBack(policy: Policy, cfg: seq<AgentConfig>, d: Daemon, i: nat, input: Input)
    requires |d.agents| == |cfg| && i < |cfg| && SlotsSound(cfg, d) && d.agents[i].pc.FailedStart?
    ensures var d' := Step(policy, cfg, d, Act(i, input));
            && d'.agents[i] == d.agents[i].(holding := false, pc := CountingError)
            && d'.shared.tracker.Count(cfg[i].role) == d.shared.tracker.Count(cfg[i].role) - 1
  {
    SoundStatesAreDisciplined(policy, cfg, d, i, input);
  }

  /** And from then on no subprocess of the agent runs before it has taken a slot anew. */
  lemma FailedStartNeedsANewSlot(policy: Policy, cfg: seq<AgentConfig>, d: Daemon, e: Event, i: nat,
        others: seq<Event>, input: Input, more: seq<Event>)
    requires |d.agents| == |cfg| && i < |cfg| && SlotsSound(cfg, d) && FailsToStart(d, e, i) && Idle(others, i)
    ensures var d1 := RunFrom(policy, cfg, Step(policy, cfg, d, e), others);
            var d2 := Step(policy, cfg, d1, Act(i, input));
            RunFrom(policy, cfg, d2, more).agents[i].pc.Running? ==>
              exists k: nat :: k < |more| && TakesSlot(cfg, RunFrom(policy, cfg, d2, more[..k]), more[k], i)
  {
    FailureLeadsBack(policy, cfg, d, e, i, others);
    var d1 := RunFrom(policy, cfg, Step(policy, cfg, d, e), others);
    SlotIsGivenBack(policy, cfg, d1, i, input);
    SlotsSoundStep(policy, cfg, d1, Act(i, input));
    var d2 := Step(policy, cfg, d1, Act(i, input));
    if RunFrom(policy, cfg, d2, more).agents[i].pc.Running? {
      SlotComesFirst(policy, cfg, d2, more, i);
    }
  }

  // ----- Asking for a slot -----

  lemma {:induction false} LimitsAreConfigured(policy: Policy, cfg: seq<AgentConfig>, roles: map<string, Option<int>>,
        events: seq<Event>)
    ensures Run(policy, cfg, roles, events).shared.tracker.limits == CT.Fresh(roles).limits
  {
    if events != [] {
      var d, e := Run(policy, cfg, roles, events[..|events| - 1]), events[|events| - 1];
      LimitsAreConfigured(policy, cfg, roles, events[..|events| - 1]);
      if e.Act? && e.i < |cfg| {
        LimitsStay(policy, cfg[e.i], d.shared, d.agents[e.i], e.input);
      }
    }
  }

  lemma LimitsStay(policy: Policy, cfg: AgentConfig, s: Shared, a: Agent, input: Input)
    ensures AgentStep(policy, cfg, s, a, input).shared.tracker.limits == s.tracker.limits
  {
  }

  /**
   In every reachable state, an agent that asks for a slot returns if and only if the tracker is closed. It
   gets the slot if and only if the tracker is open and its role has no configured limit, or fewer of the
   agents of that role hold one than the limit says; otherwise it sleeps.
   */
  lemma SlotIsGrantedIff(policy: Policy, cfg: seq<AgentConfig>, roles: map<string, Option<int>>, events: seq<Event>,
        i: nat, input: Input)
    requires i < |cfg| && Run(policy, cfg, roles, events).agents[i].pc.WantSlot?
    ensures var d := Run(policy, cfg, roles, events);
            var pc := Step(policy, cfg, d, Act(i, input)).agents[i].pc;
            var limit := CT.Configured(roles, cfg[i].role);
            && (pc.Returning? <==> d.shared.tracker.closed)
            && (pc.Assigning? <==>
                && !d.shared.tracker.closed
                && (limit == 0 || |Holders(cfg, d.agents, cfg[i].role)| < limit))
            && (pc.Returning? || pc.Assigning? || pc.Asleep?)
  {
    SlotsAreConserved(policy, cfg, roles, events);
    LimitsAreConfigured(policy, cfg, roles, events);
  }

  // ----- Why a supervisor returns -----

  /** What makes a supervisor return in its next step. */
  predicate HasToReturn(policy: Policy, cfg: AgentConfig, s: Shared, a: Agent, input: Input)
  {
    match a.pc
    case Top => s.shutdown
    case WantSlot => s.tracker.closed
    case AfterExit => s.shutdown
    case Backoff => s.shutdown && input.interrupted
    case ErrorBackoff => s.shutdown && input.interrupted
    case Deciding => RestartLaws.GivesUp(policy, cfg.fallbacks, a.counters)
    case CountingError => a.counters.restartCount >= policy.MaxRetries()
    case _ => false
  }

  lemma StartReturnsIff(policy: Policy, cfg: AgentConfig, s: Shared, a: Agent, input: Input)
    requires Starting(a.pc)
    ensures StartStep(cfg, s, a, input).agent.pc.Returning? <==> HasToReturn(policy, cfg, s, a, input)
  {
  }

  lemma ExitNeverReturns(cfg: AgentConfig, s: Shared, a: Agent, input: Input)
    requires HasExited(a.pc)
    ensures !Ended(ExitStep(cfg, s, a, input).agent.pc)
  {
  }

  lemma PauseReturnsIff(policy: Policy, cfg: AgentConfig, s: Shared, a: Agent, input: Input)
    requires !Starting(a.pc) && !HasExited(a.pc) && !Ended(a.pc)
    ensures PauseStep(policy, cfg, s, a, input).agent.pc.Returning? <==> HasToReturn(policy, cfg, s, a, input)
  {
  }

  lemma AgentReturnsIff(policy: Policy, cfg: AgentConfig, s: Shared, a: Agent, input: Input)
    requires !Ended(a.pc)
    ensures AgentStep(policy, cfg, s, a, input).agent.pc.Returning? <==> HasToReturn(policy, cfg, s, a, input)
  {
    if Starting(a.pc) {
      StartReturnsIff(policy, cfg, s, a, input);
    } else if HasExited(a.pc) {
      ExitNeverReturns(cfg, s, a, input);
    } else {
      PauseReturnsIff(policy, cfg, s, a, input);
    }
  }

  /**
   A supervisor comes to return in an event if and only if it is its own step and shutdown is signalled at
   the top of the loop, after an exit or in a wait, the tracker is closed where it asks for a slot, it
   gives up after an exit, or a start has failed beyond the last retry.
   */
  lemma ReturnsIff(policy: Policy, cfg: seq<AgentConfig>, d: Daemon, e: Event, i: nat)
    requires |d.agents| == |cfg| && i < |cfg| && !Ended(d.agents[i].pc)
    ensures Step(policy, cfg, d, e).agents[i].pc.Returning? <==>
            e.Act? && e.i == i && HasToReturn(policy, cfg[i], d.shared, d.agents[i], e.input)
  {
    AgentAfterStep(policy, cfg, d, e, i);
    if e.Act? && e.i == i {
      AgentReturnsIff(policy, cfg[i], d.shared, d.agents[i], e.input);
    }
  }

  /** So with neither shutdown nor a closed tracker a supervisor ends only by its own failures. */
  lemma OnlyFailuresEndASupervisor(policy: Policy, cfg: seq<AgentConfig>, d: Daemon, e: Event, i: nat)
    requires |d.agents| == |cfg| && i < |cfg| && !Ended(d.agents[i].pc)
    requires !d.shared.shutdown && !d.shared.tracker.closed
    requires Ended(Step(policy, cfg, d, e).agents[i].pc)
    ensures var (a, c) := (d.agents[i], d.agents[i].counters);
            || (a.pc.Deciding? && RestartLaws.GivesUp(policy, cfg[i].fallbacks, c))
            || (a.pc.CountingError? && c.restartCount >= policy.MaxRetries())
  {
    ReturnsIff(policy, cfg, d, e, i);
    AgentAfterStep(policy, cfg, d, e, i);
    if e.Act? && e.i == i {
      NobodySkipsReturning(policy, cfg[i], d.shared, d.agents[i], e.input);
    }
  }

  lemma NobodySkipsReturning(policy: Policy, cfg: AgentConfig, s: Shared, a: Agent, input: Input)
    requires !Ended(a.pc)
    ensures !AgentStep(policy, cfg, s, a, input).agent.pc.Gone?
  {
    if HasExited(a.pc) {
      ExitNeverReturns(cfg, s, a, input);
    }
  }

  // ----- Once round the loop -----

  function ActOn(policy: Policy, cfg: AgentConfig, s: Shared, a: Agent, input: Input): (Shared, Agent)
  {
    var effect := AgentStep(policy, cfg, s, a, input);
    (effect.shared, effect.agent)
  }

  /** The exit code and the error of an agent. */
  function LastExit(a: Agent): (int, Option<AgentError>) { (a.counters.lastExitCode, a.counters.lastError) }

  lemma StartRecordsExit(cfg: AgentConfig, s: Shared, a: Agent, input: Input)
    requires Starting(a.pc)
    ensures LastExit(StartStep(cfg, s, a, input).agent) ==
            if a.pc.Running? then (input.exitCode, input.error) else LastExit(a)
  {
  }

  lemma ExitStepKeepsExit(cfg: AgentConfig, s: Shared, a: Agent, input: Input)
    requires HasExited(a.pc)
    ensures LastExit(ExitStep(cfg, s, a, input).agent) == LastExit(a)
  {
  }

  lemma PauseKeepsExit(policy: Policy, cfg: AgentConfig, s: Shared, a: Agent, input: Input)
    requires !Starting(a.pc) && !HasExited(a.pc)
    ensures LastExit(PauseStep(policy, cfg, s, a, input).agent) == LastExit(a)
  {
  }

  /** The exit code and the error that a decision is made on are those of the last exit. */
  lemma ExitIsRecorded(policy: Policy, cfg: AgentConfig, s: Shared, a: Agent, input: Input)
    ensures LastExit(AgentStep(policy, cfg, s, a, input).agent) ==
            if a.pc.Running? then (input.exitCode, input.error) else LastExit(a)
  {
    if Starting(a.pc) {
      StartRecordsExit(cfg, s, a, input);
    } else if HasExited(a.pc) {
      ExitStepKeepsExit(cfg, s, a, input);
    } else {
      PauseKeepsExit(policy, cfg, s, a, input);
    }
  }

  /** The epic that the assigner answers for the worktree, "" for none. */
  function NextEpic(cfg: AgentConfig, s: Shared, input: Input): string
  {
    OrNone(EA.Assigned(s.assignments, cfg.worktree, input.answer))
  }

  lemma StartIsMade(policy: Policy, cfg: AgentConfig, s: Shared, a: Agent, input: Input)
    requires a.pc.Assigning? && input.ok
    ensures var (s1, a1) := ActOn(policy, cfg, s, a, input);
            var (s2, a2) := ActOn(policy, cfg, s1, a1, input);
            var (s3, a3) := ActOn(policy, cfg, s2, a2, input);
            var epic := NextEpic(cfg, s, input);
            ActOn(policy, cfg, s3, a3, input) ==
            (s.(assignments := EA.AfterAssign(s.assignments, cfg.worktree, input.answer)),
             a.(epic := epic, branch := Some(TargetBranch(cfg.worktree, epic)), pc := Running(false)))
  {
  }

  /**
   An agent at the top of the loop, with no shutdown, an open tracker and room for its role, whose switch
   and spawn succeed, runs its subprocess after six steps, on the branch of the epic assigned to it.
   */
  lemma HealthyAgentStarts(policy: Policy, cfg: AgentConfig, s: Shared, a: Agent, input: Input)
    requires a.pc.Top? && input.ok && !s.shutdown && !s.tracker.closed && CT.HasRoom(s.tracker, cfg.role)
    ensures var (s1, a1) := ActOn(policy, cfg, s, a, input);
            var (s2, a2) := ActOn(policy, cfg, s1, a1, input);
            var (s3, a3) := ActOn(policy, cfg, s2, a2, input);
            var (s4, a4) := ActOn(policy, cfg, s3, a3, input);
            var (s5, a5) := ActOn(policy, cfg, s4, a4, input);
            var (s6, a6) := ActOn(policy, cfg, s5, a5, input);
            var epic := NextEpic(cfg, s, input);
            && a6.pc == Running(false) && a6.epic == epic && a6.branch == Some(TargetBranch(cfg.worktree, epic))
            && a6.holding && s6.tracker.Count(cfg.role) == s.tracker.Count(cfg.role) + 1
            && a6.counters == a.counters
  {
    var (s1, a1) := ActOn(policy, cfg, s, a, input);
    var (s2, a2) := ActOn(policy, cfg, s1, a1, input);
    StartIsMade(policy, cfg, s2, a2, input);
  }

  /**
   With the epic kept and no shutdown, an exit and four steps more lead to the decision, with assignment
   and slot given back.
   */
  lemma ExitIsDecidedOn(policy: Policy, cfg: AgentConfig, s: Shared, a: Agent, exit: Input, input: Input)
    requires a.pc.Running? && !s.shutdown && input.hasReady != Some(false) && !input.interrupted
    ensures var (s1, a1) := ActOn(policy, cfg, s, a, exit);
            var (s2, a2) := ActOn(policy, cfg, s1, a1, input);
            var (s3, a3) := ActOn(policy, cfg, s2, a2, input);
            var (s4, a4) := ActOn(policy, cfg, s3, a3, input);
            var (s5, a5) := ActOn(policy, cfg, s4, a4, input);
            && s5 == s.(tracker := CT.AfterRelease(s.tracker, cfg.role), assignments := s.assignments - {cfg.worktree})
            && a5 == a.(pc := Deciding, holding := false, switched := false,
                        counters := a.counters.(lastExitCode := exit.exitCode, lastError := exit.error))
  {
  }

  /** From the decision the loop starts again, at once after a failover and else after a wait, unless it gives up. */
  lemma DecisionLeadsOn(policy: Policy, cfg: AgentConfig, s: Shared, a: Agent, input: Input, later: Input)
    requires a.pc.Deciding? && !s.shutdown
    ensures var (s1, a1) := ActOn(policy, cfg, s, a, input);
            var (s2, a2) := ActOn(policy, cfg, s1, a1, later);
            && s1 == s && s2.tracker == s.tracker
            && if RestartLaws.FailsOver(a.counters, cfg.fallbacks) then a1.pc.Top?
               else if RestartLaws.GivesUp(policy, cfg.fallbacks, a.counters) then a1.pc.Returning? && a2.pc.Gone?
               else a1.pc.Backoff? && a2 == a1.(pc := Top)
  {
  }

  /** A wait ends at the top of the loop, unless shutdown interrupts it. */
  lemma WaitLeadsOn(policy: Policy, cfg: AgentConfig, s: Shared, a: Agent, input: Input)
    requires a.pc.Backoff? || a.pc.ErrorBackoff?
    ensures ActOn(policy, cfg, s, a, input) ==
            (s, a.(pc := if s.shutdown && input.interrupted then Returning else Top))
  {
  }

  // ----- Exhausted epics -----

  /** An epic that is not exhausted, or that cannot be looked up, is kept, and so is the mode without epics. */
  lemma EpicIsKept(policy: Policy, cfg: AgentConfig, s: Shared, a: Agent, input: Input)
    requires a.pc.Transition? && (a.epic == "" || input.hasReady == None || input.hasReady == Some(true))
    ensures ActOn(policy, cfg, s, a, input) == (s, a.(pc := AfterExit))
  {
  }

  lemma AssignMaps(assignments: EA.Assignments, worktree: string, answer: EA.Answer)
    requires worktree !in assignments
    ensures var after := EA.AfterAssign(assignments, worktree, answer);
            && MapEpic(after, worktree) == OrNone(EA.Assigned(assignments, worktree, answer))
            && after - {worktree} == assignments
  {
  }

  /** What an exhausted epic leaves behind: no assignment but the next one, if there is one. */
  lemma NextEpicIsSought(policy: Policy, cfg: AgentConfig, s: Shared, a: Agent, checked: Input, found: Input)
    requires a.pc.Transition? && a.epic != "" && checked.hasReady == Some(false)
    ensures var next := OrNone(EA.Assigned(s.assignments - {cfg.worktree}, cfg.worktree, found.answer));
            var (s1, a1) := ActOn(policy, cfg, s, a, checked);
            var (s2, a2) := ActOn(policy, cfg, s1, a1, found);
            && s1 == s.(assignments := s.assignments - {cfg.worktree})
            && s2 == s.(assignments := s2.assignments) && s2.assignments - {cfg.worktree} == s1.assignments
            && MapEpic(s2.assignments, cfg.worktree) == next
            && a2 == a.(pc := if next == "" then Leaving else Switching(next))
  {
    AssignMaps(ActOn(policy, cfg, s, a, checked).0.assignments, cfg.worktree, found.answer);
  }

  /**
   The way an exhausted epic is left: its assignment is dropped and a new one sought. With a new epic the
   worktree is switched first; if that works, the agent takes the epic over with its retries restored, and
   if not, the new assignment is dropped again and the agent is as before.
   */
  lemma NextEpicIsTakenOver(policy: Policy, cfg: AgentConfig, s: Shared, a: Agent,
        checked: Input, found: Input, switched: Input, rolled: Input)
    requires a.pc.Transition? && a.epic != "" && checked.hasReady == Some(false)
    requires OrNone(EA.Assigned(s.assignments - {cfg.worktree}, cfg.worktree, found.answer)) != ""
    ensures var next := OrNone(EA.Assigned(s.assignments - {cfg.worktree}, cfg.worktree, found.answer));
            var (s1, a1) := ActOn(policy, cfg, s, a, checked);
            var (s2, a2) := ActOn(policy, cfg, s1, a1, found);
            var (s3, a3) := ActOn(policy, cfg, s2, a2, switched);
            && s1.assignments == s.assignments - {cfg.worktree}
            && MapEpic(s2.assignments, cfg.worktree) == next
            && s2.assignments - {cfg.worktree} == s1.assignments
            && if switched.ok then
                 && s3 == s2 && a3.epic == next && a3.branch == Some("epic/" + next)
                 && a3.counters == a.counters.(restartCount := 0) && a3.pc.AfterExit?
               else
                 ActOn(policy, cfg, s3, a3, rolled) ==
                 (s.(assignments := s.assignments - {cfg.worktree}), a.(pc := AfterExit))
  {
    NextEpicIsSought(policy, cfg, s, a, checked, found);
  }

  /**
   With no new epic the agent goes on without one, and its retries are restored if its worktree could be
   switched to its own branch.
   */
  lemma EpicModeIsLeft(policy: Policy, cfg: AgentConfig, s: Shared, a: Agent,
        checked: Input, found: Input, switched: Input)
    requires a.pc.Transition? && a.epic != "" && checked.hasReady == Some(false)
    requires OrNone(EA.Assigned(s.assignments - {cfg.worktree}, cfg.worktree, found.answer)) == ""
    ensures var (s1, a1) := ActOn(policy, cfg, s, a, checked);
            var (s2, a2) := ActOn(policy, cfg, s1, a1, found);
            var (_, a3) := ActOn(policy, cfg, s2, a2, switched);
            && a3.epic == "" && a3.pc.AfterExit?
            && a3.branch == (if switched.ok then Some(cfg.worktree) else a.branch)
            && a3.counters == (if switched.ok then a.counters.(restartCount := 0) else a.counters)
  {
    NextEpicIsSought(policy, cfg, s, a, checked, found);
  }
}
