/**
 The daemon: any number of supervisor loops that share the slot tracker and the epic assignments.

 Each supervisor is a program counter, the fields of its agent, and one step per locked region or
 outside call. Git, the issue tracker, subprocess exits and timers answer through the step's input.
 */
module Supervisor {
  import opened Prelude
  import opened RestartPolicy
  import CT = ConcurrencyTracker
  import EA = EpicAssigner

  datatype AgentConfig = AgentConfig(worktree: string, role: string, fallbacks: nat)

  datatype Pc =
    | Top
    | WantSlot
    | Asleep
    | Assigning
    | GotEpic(local: string)
    | Branching(local: string)
    | Spawning(local: string)
    | Running(signalled: bool)
    | Exited
    | GivingBackSlot
    | Transition
    | Reassigning
    | Leaving
    | Switching(local: string)
    | RollingBack
    | AfterExit
    | Deciding
    | Backoff
    | FailedStart
    | CountingError
    | ErrorBackoff
    | Returning
    | Gone

  /**
   A running subprocess is `signalled` once Stop has sent it the terminating signals.
   `epic` is assignedEpicID, and `branch` the branch the worktree is on: that of the last switch that
   succeeded, None before the first. The last three fields are history: `holding` is set by a granted
   Acquire and cleared by Release, `switched` says that the epic changed since the exit, and `cycles`
   lists the trips round the loop that have reached a restart decision.
   */
  datatype Agent = Agent(
    pc: Pc, epic: string, branch: Option<string>, counters: Counters, holding: bool, switched: bool,
    cycles: seq<Cycle>)

  /** The answers of the outside world to one step; each step looks at the ones it needs. */
  datatype Input = Input(
    ok: bool, answer: EA.Answer, hasReady: Option<bool>, exitCode: int, error: Option<AgentError>,
    longRun: bool, interrupted: bool)

  datatype Shared = Shared(tracker: CT.State, assignments: EA.Assignments, shutdown: bool)

  datatype Daemon = Daemon(shared: Shared, agents: seq<Agent>)

  function EpicBranch(epic: string): string { "epic/" + epic }

  /** The branch an agent works on: its epic's, or the one named after its worktree. */
  function TargetBranch(worktree: string, epic: string): string
  {
    if epic == "" then worktree else EpicBranch(epic)
  }

  function OrNone(epic: Option<string>): string { if epic.Some? then epic.value else "" }

  /** What one supervisor step does: the shared state, its own agent, and whether it wakes the sleepers. */
  datatype Effect = Effect(shared: Shared, agent: Agent, wakes: bool)

  predicate Starting(pc: Pc)
  {
    pc.Top? || pc.WantSlot? || pc.Asleep? || pc.Assigning? || pc.GotEpic? || pc.Branching?
      || pc.Spawning? || pc.Running?
  }

  /** Between an exit and the restart decision the counters already show that exit. */
  predicate HasExited(pc: Pc)
  {
    pc.Exited? || pc.GivingBackSlot? || pc.Transition? || pc.Reassigning? || pc.Leaving?
      || pc.Switching? || pc.RollingBack?
  }

  /** The next step of the loop. */
  function AgentStep(policy: Policy, cfg: AgentConfig, s: Shared, a: Agent, input: Input): Effect
  {
    if Starting(a.pc) then StartStep(cfg, s, a, input)
    else if HasExited(a.pc) then ExitStep(cfg, s, a, input)
    else PauseStep(policy, cfg, s, a, input)
  }

  /** From the top of the loop to the exit of the subprocess. */
  function StartStep(cfg: AgentConfig, s: Shared, a: Agent, input: Input): Effect
    requires Starting(a.pc)
  {
    match a.pc
    case Top => Effect(s, a.(pc := if s.shutdown then Returning else WantSlot), false)
    case WantSlot => TestForSlot(cfg, s, a)
    case Asleep => Effect(s, a, false)
    case Assigning =>
      Effect(s.(assignments := EA.AfterAssign(s.assignments, cfg.worktree, input.answer)),
             a.(pc := GotEpic(OrNone(EA.Assigned(s.assignments, cfg.worktree, input.answer)))), false)
    case GotEpic(epic) => Effect(s, a.(epic := epic, pc := Branching(epic)), false)
    case Branching(epic) =>
      Effect(s, if input.ok then a.(branch := Some(TargetBranch(cfg.worktree, epic)), pc := Spawning(epic))
                else a.(pc := FailedStart), false)
    case Spawning(_) => Effect(s, a.(pc := if input.ok then Running(false) else FailedStart), false)
    case Running(_) =>
      Effect(s,
        a.(counters := RestartPolicy.AfterExit(a.counters, input.exitCode, input.error),
           switched := false, pc := Exited),
             false)
  }

  /** After an exit: release the epic and the slot, and move to another epic when this one is exhausted. */
  function ExitStep(cfg: AgentConfig, s: Shared, a: Agent, input: Input): Effect
    requires HasExited(a.pc)
  {
    match a.pc
    case Exited => Effect(s.(assignments := s.assignments - {cfg.worktree}), a.(pc := GivingBackSlot), false)
    case GivingBackSlot => GiveBack(cfg, s, a, Transition)
    case Transition =>
      if a.epic == "" || input.hasReady != Some(false) then Effect(s, a.(pc := AfterExit), false)
      else Effect(s.(assignments := s.assignments - {cfg.worktree}), a.(pc := Reassigning), false)
    case Reassigning =>
      var epic := OrNone(EA.Assigned(s.assignments, cfg.worktree, input.answer));
      Effect(s.(assignments := EA.AfterAssign(s.assignments, cfg.worktree, input.answer)),
             a.(pc := if epic == "" then Leaving else Switching(epic)), false)
    case Leaving =>
      Effect(s, if input.ok
                then a.(epic := "", branch := Some(TargetBranch(cfg.worktree, "")),
                        counters := a.counters.(restartCount := 0), switched := true, pc := AfterExit)
                else a.(epic := "", pc := AfterExit), false)
    case Switching(epic) =>
      Effect(s, if input.ok
                then a.(epic := epic, branch := Some(TargetBranch(cfg.worktree, epic)),
                        counters := a.counters.(restartCount := 0), switched := true, pc := AfterExit)
                else a.(pc := RollingBack), false)
    case RollingBack => Effect(s.(assignments := s.assignments - {cfg.worktree}), a.(pc := AfterExit), false)
  }

  /** The restart decision, the waits, and the way out. */
  function PauseStep(policy: Policy, cfg: AgentConfig, s: Shared, a: Agent, input: Input): Effect
    requires !Starting(a.pc) && !HasExited(a.pc)
  {
    match a.pc
    case AfterExit => Effect(s, a.(pc := if s.shutdown then Returning else Deciding), false)
    case Deciding => Decide(policy, cfg, s, a, input.longRun)
    case Backoff => Effect(s, a.(pc := if s.shutdown && input.interrupted then Returning else Top), false)
    case FailedStart => GiveBack(cfg, s, a, CountingError)
    case CountingError => CountError(policy, s, a)
    case ErrorBackoff => Effect(s, a.(pc := if s.shutdown && input.interrupted then Returning else Top), false)
    case Returning => Effect(s.(assignments := s.assignments - {cfg.worktree}), a.(pc := Gone), false)
    case Gone => Effect(s, a, false)
  }

  function TestForSlot(cfg: AgentConfig, s: Shared, a: Agent): Effect
  {
    Effect(s.(tracker := CT.AfterAcquire(s.tracker, cfg.role)),
           match CT.AcquireVerdict(s.tracker, cfg.role)
           case Granted => a.(pc := Assigning, holding := true)
           case Refused => a.(pc := Returning)
           case Wait => a.(pc := Asleep),
           false)
  }

  /** Failover first, then the restart decision. */
  function Decide(policy: Policy, cfg: AgentConfig, s: Shared, a: Agent, longRun: bool): Effect
  {
    var (failed, triggered) := Failover(a.counters, cfg.fallbacks);
    var (restarted, again) := Restart(policy, a.counters, longRun);
    var cycle := Exit(a.counters.lastExitCode, a.counters.lastError, longRun, a.switched);
    var decided := a.(cycles := a.cycles + [cycle]);
    Effect(s, if triggered then decided.(counters := failed, pc := Top)
              else decided.(counters := restarted, pc := if again then Backoff else Returning), false)
  }

  function CountError(policy: Policy, s: Shared, a: Agent): Effect
  {
    var (counted, again) := RestartAfterError(policy, a.counters);
    Effect(s, a.(counters := counted, cycles := a.cycles + [SpawnError],
                 pc := if again then ErrorBackoff else Returning), false)
  }

  function GiveBack(cfg: AgentConfig, s: Shared, a: Agent, next: Pc): Effect
  {
    Effect(s.(tracker := CT.AfterRelease(s.tracker, cfg.role)), a.(holding := false, pc := next),
           CT.ReleaseWakes(s.tracker, cfg.role))
  }

  /** Broadcast on the condition variable: every sleeper will test again. */
  function Woken(agents: seq<Agent>): seq<Agent>
  {
    seq(|agents|, i requires 0 <= i < |agents| =>
      if agents[i].pc == Asleep then agents[i].(pc := WantSlot) else agents[i])
  }

  datatype Event =
    | Act(i: nat, input: Input)
    | SignalShutdown
    | CloseTracker
    | StopAgent(i: nat)

  /** stopAgent: signals the subprocess if there is one, and otherwise does nothing. */
  function Signalled(a: Agent): Agent { if a.pc.Running? then a.(pc := a.pc.(signalled := true)) else a }

  function AfterEffect(d: Daemon, i: nat, effect: Effect): Daemon
    requires i < |d.agents|
  {
    var agents := d.agents[i := effect.agent];
    Daemon(effect.shared, if effect.wakes then Woken(agents) else agents)
  }

  function Step(policy: Policy, cfg: seq<AgentConfig>, d: Daemon, e: Event): Daemon
    requires |d.agents| == |cfg|
    ensures |Step(policy, cfg, d, e).agents| == |cfg|
  {
    match e
    case Act(i, input) =>
      if i >= |d.agents| then d
      else AfterEffect(d, i, AgentStep(policy, cfg[i], d.shared, d.agents[i], input))
    case SignalShutdown => d.(shared := d.shared.(shutdown := true))
    case CloseTracker =>
      Daemon(d.shared.(tracker := d.shared.tracker.(closed := true)),
             if d.shared.tracker.closed then d.agents else Woken(d.agents))
    case StopAgent(i) => if i >= |d.agents| then d else d.(agents := d.agents[i := Signalled(d.agents[i])])
  }

  function Started(cfg: seq<AgentConfig>, roles: map<string, Option<int>>): Daemon
  {
    Daemon(Shared(CT.Fresh(roles), map[], false), seq(|cfg|, i => Agent(Top, "", None, INITIAL, false, false, [])))
  }

  function Run(policy: Policy, cfg: seq<AgentConfig>, roles: map<string, Option<int>>, events: seq<Event>): (d: Daemon)
    ensures |d.agents| == |cfg|
  {
    if events == [] then Started(cfg, roles)
    else Step(policy, cfg, Run(policy, cfg, roles, events[..|events| - 1]), events[|events| - 1])
  }

  /** Worktree names as the configuration validator accepts them. */
  predicate ValidWorktree(name: string)
  {
    forall c | c in name :: 'a' <= c <= 'z' || 'A' <= c <= 'Z' || '0' <= c <= '9' || c == '-' || c == '_'
  }

  ghost predicate ValidConfig(cfg: seq<AgentConfig>)
  {
    && (forall i | 0 <= i < |cfg| :: ValidWorktree(cfg[i].worktree))
    && forall i, j | 0 <= i < |cfg| && 0 <= j < |cfg| && cfg[i].worktree == cfg[j].worktree :: i == j
  }

  // ----- Slots -----

  /** The program counters between a granted Acquire and its Release. */
  predicate BetweenAcquireAndRelease(pc: Pc)
  {
    pc.Assigning? || pc.GotEpic? || pc.Branching? || pc.Spawning? || pc.Running?
      || pc.Exited? || pc.GivingBackSlot? || pc.FailedStart?
  }

  function Holders(cfg: seq<AgentConfig>, agents: seq<Agent>, role: string): set<int>
    requires |agents| == |cfg|
  {
    set i | 0 <= i < |agents| && agents[i].holding && cfg[i].role == role
  }

  ghost predicate SlotsSound(cfg: seq<AgentConfig>, d: Daemon)
    requires |d.agents| == |cfg|
  {
    && d.shared.tracker.Valid()
    && (forall role :: d.shared.tracker.Count(role) == |Holders(cfg, d.agents, role)|)
    && forall i | 0 <= i < |cfg| :: AgentSlotSound(cfg[i], d.shared, d.agents[i])
  }

  ghost predicate AgentSlotSound(cfg: AgentConfig, s: Shared, a: Agent)
  {
    && (a.holding <==> BetweenAcquireAndRelease(a.pc))
    && (a.pc == Asleep ==> s.tracker.Full(cfg.role) && !s.tracker.closed)
  }

  function AsInt(b: bool): int { if b then 1 else 0 }

  /** One agent's step as the tracker sees it. */
  ghost predicate SlotStep(cfg: AgentConfig, s: Shared, a: Agent, e: Effect)
  {
    && e.shared.tracker.Valid() && AgentSlotSound(cfg, e.shared, e.agent)
    && e.shared.tracker.Count(cfg.role) - s.tracker.Count(cfg.role) == AsInt(e.agent.holding) - AsInt(a.holding)
    && (forall r | r != cfg.role :: e.shared.tracker.Count(r) == s.tracker.Count(r))
    && e.shared.tracker.limits == s.tracker.limits && e.shared.tracker.closed == s.tracker.closed
    && (e.shared.tracker.Count(cfg.role) < s.tracker.Count(cfg.role) ==> e.wakes)
  }

  predicate TouchesTracker(pc: Pc) { pc.WantSlot? || pc.GivingBackSlot? || pc.FailedStart? }

  ghost predicate LeavesTracker(cfg: AgentConfig, s: Shared, a: Agent, e: Effect)
  {
    && e.shared.tracker == s.tracker && e.agent.holding == a.holding
    && AgentSlotSound(cfg, e.shared, e.agent)
  }

  lemma StartLeavesTracker(cfg: AgentConfig, s: Shared, a: Agent, input: Input)
    requires Starting(a.pc) && !TouchesTracker(a.pc) && AgentSlotSound(cfg, s, a)
    ensures LeavesTracker(cfg, s, a, StartStep(cfg, s, a, input))
  {
  }

  lemma ExitLeavesTracker(cfg: AgentConfig, s: Shared, a: Agent, input: Input)
    requires HasExited(a.pc) && !TouchesTracker(a.pc) && AgentSlotSound(cfg, s, a)
    ensures LeavesTracker(cfg, s, a, ExitStep(cfg, s, a, input))
  {
  }

  lemma PauseLeavesTracker(policy: Policy, cfg: AgentConfig, s: Shared, a: Agent, input: Input)
    requires !Starting(a.pc) && !HasExited(a.pc) && !TouchesTracker(a.pc) && AgentSlotSound(cfg, s, a)
    ensures LeavesTracker(cfg, s, a, PauseStep(policy, cfg, s, a, input))
  {
  }

  lemma OtherStepsLeaveTracker(policy: Policy, cfg: AgentConfig, s: Shared, a: Agent, input: Input)
    requires !TouchesTracker(a.pc) && AgentSlotSound(cfg, s, a)
    ensures LeavesTracker(cfg, s, a, AgentStep(policy, cfg, s, a, input))
  {
    if Starting(a.pc) {
      StartLeavesTracker(cfg, s, a, input);
    } else if HasExited(a.pc) {
      ExitLeavesTracker(cfg, s, a, input);
    } else {
      PauseLeavesTracker(policy, cfg, s, a, input);
    }
  }

  lemma TestForSlotSlots(cfg: AgentConfig, s: Shared, a: Agent)
    requires s.tracker.Valid() && AgentSlotSound(cfg, s, a) && a.pc.WantSlot?
    ensures SlotStep(cfg, s, a, TestForSlot(cfg, s, a))
  {
    assert CT.AfterAcquire(s.tracker, cfg.role).Valid();
  }

  lemma GiveBackSlots(cfg: AgentConfig, s: Shared, a: Agent, next: Pc)
    requires s.tracker.Valid() && a.holding && s.tracker.Count(cfg.role) >= 1
    requires next == Transition || next == CountingError
    ensures SlotStep(cfg, s, a, GiveBack(cfg, s, a, next))
  {
    assert CT.AfterRelease(s.tracker, cfg.role).Valid();
  }

  lemma AgentStepSlots(policy: Policy, cfg: AgentConfig, s: Shared, a: Agent, input: Input)
    requires s.tracker.Valid() && AgentSlotSound(cfg, s, a)
    requires a.holding ==> s.tracker.Count(cfg.role) >= 1
    ensures SlotStep(cfg, s, a, AgentStep(policy, cfg, s, a, input))
  {
    if a.pc.WantSlot? {
      TestForSlotSlots(cfg, s, a);
    } else if a.pc.GivingBackSlot? {
      GiveBackSlots(cfg, s, a, Transition);
    } else if a.pc.FailedStart? {
      GiveBackSlots(cfg, s, a, CountingError);
    } else {
      OtherStepsLeaveTracker(policy, cfg, s, a, input);
    }
  }

  lemma HoldersAfter(cfg: seq<AgentConfig>, before: seq<Agent>, after: seq<Agent>, i: nat, role: string)
    requires |before| == |after| == |cfg| && i < |cfg|
    requires forall j | 0 <= j < |cfg| && j != i :: after[j].holding == before[j].holding
    ensures |Holders(cfg, after, role)| - |Holders(cfg, before, role)| ==
            if cfg[i].role == role then AsInt(after[i].holding) - AsInt(before[i].holding) else 0
  {
    var others := Holders(cfg, before, role) - {i};
    assert others == Holders(cfg, after, role) - {i};
    assert Holders(cfg, before, role) == if i in Holders(cfg, before, role) then others + {i} else others;
    assert Holders(cfg, after, role) == if i in Holders(cfg, after, role) then others + {i} else others;
  }

  lemma EffectKeepsSlots(cfg: seq<AgentConfig>, d: Daemon, i: nat, effect: Effect)
    requires |d.agents| == |cfg| && i < |cfg| && SlotsSound(cfg, d)
    requires SlotStep(cfg[i], d.shared, d.agents[i], effect)
    ensures SlotsSound(cfg, AfterEffect(d, i, effect))
  {
    var d' := AfterEffect(d, i, effect);
    forall r ensures d'.shared.tracker.Count(r) == |Holders(cfg, d'.agents, r)| {
      HoldersAfter(cfg, d.agents, d'.agents, i, r);
    }
    forall j | 0 <= j < |cfg|
      ensures AgentSlotSound(cfg[j], d'.shared, d'.agents[j])
    {
      assert AgentSlotSound(cfg[j], d.shared, d.agents[j]);
      assert d'.shared.tracker.Limit(cfg[j].role) == d.shared.tracker.Limit(cfg[j].role);
      if !effect.wakes {
        assert d'.shared.tracker.Count(cfg[j].role) >= d.shared.tracker.Count(cfg[j].role);
      }
    }
  }

  lemma SlotsSoundStep(policy: Policy, cfg: seq<AgentConfig>, d: Daemon, e: Event)
    requires |d.agents| == |cfg| && SlotsSound(cfg, d)
    ensures SlotsSound(cfg, Step(policy, cfg, d, e))
  {
    if e.Act? && e.i < |cfg| {
      assert AgentSlotSound(cfg[e.i], d.shared, d.agents[e.i]);
      if d.agents[e.i].holding {
        assert e.i in Holders(cfg, d.agents, cfg[e.i].role);
      }
      AgentStepSlots(policy, cfg[e.i], d.shared, d.agents[e.i], e.input);
      EffectKeepsSlots(cfg, d, e.i, AgentStep(policy, cfg[e.i], d.shared, d.agents[e.i], e.input));
    } else {
      SignalKeepsSlots(policy, cfg, d, e);
    }
  }

  lemma SignalKeepsSlots(policy: Policy, cfg: seq<AgentConfig>, d: Daemon, e: Event)
    requires |d.agents| == |cfg| && SlotsSound(cfg, d) && !(e.Act? && e.i < |cfg|)
    ensures SlotsSound(cfg, Step(policy, cfg, d, e))
  {
    var d' := Step(policy, cfg, d, e);
    forall r ensures Holders(cfg, d'.agents, r) == Holders(cfg, d.agents, r) {
    }
    forall j | 0 <= j < |cfg|
      ensures AgentSlotSound(cfg[j], d'.shared, d'.agents[j])
    {
      assert AgentSlotSound(cfg[j], d.shared, d.agents[j]);
    }
  }

  /** In every reachable state: counts equal holders, no role is over its limit, nobody sleeps on a free slot. */
  lemma {:induction false} SlotsAreConserved(policy: Policy, cfg: seq<AgentConfig>,
        roles: map<string, Option<int>>, events: seq<Event>)
    ensures SlotsSound(cfg, Run(policy, cfg, roles, events))
  {
    if events == [] {
      forall r ensures Holders(cfg, Started(cfg, roles).agents, r) == {} {
      }
    } else {
      SlotsAreConserved(policy, cfg, roles, events[..|events| - 1]);
      SlotsSoundStep(policy, cfg, Run(policy, cfg, roles, events[..|events| - 1]), events[|events| - 1]);
    }
  }

  /**
   What follows for one supervisor: it releases only a slot it holds and that the tracker counts, it
   is between runs or finished only without a slot, and after the tracker is closed it acquires none.
   */
  ghost predicate Disciplined(policy: Policy, cfg: seq<AgentConfig>, d: Daemon, i: nat, input: Input)
    requires |d.agents| == |cfg| && i < |cfg|
  {
    var (a, s) := (d.agents[i], d.shared);
    var e := AgentStep(policy, cfg[i], s, a, input);
    && (a.pc.GivingBackSlot? || a.pc.FailedStart? ==>
          && a.holding && s.tracker.Count(cfg[i].role) > 0
          && e.shared.tracker.Count(cfg[i].role) == s.tracker.Count(cfg[i].role) - 1)
    && ((a.pc.Top? || a.pc.WantSlot? || a.pc.Asleep? || a.pc.Backoff? || a.pc.ErrorBackoff? || a.pc.Returning?
         || a.pc.Gone?) ==>
          !a.holding)
    && (s.tracker.closed ==> a.pc != Asleep)
    && (s.tracker.closed && !a.holding ==> !e.agent.holding)
  }

  lemma SoundStatesAreDisciplined(policy: Policy, cfg: seq<AgentConfig>, d: Daemon, i: nat, input: Input)
    requires |d.agents| == |cfg| && i < |cfg| && SlotsSound(cfg, d)
    ensures Disciplined(policy, cfg, d, i, input)
  {
    var a := d.agents[i];
    assert AgentSlotSound(cfg[i], d.shared, a);
    if a.holding {
      assert i in Holders(cfg, d.agents, cfg[i].role);
    }
    if TouchesTracker(a.pc) {
      AgentStepSlots(policy, cfg[i], d.shared, a, input);
    } else {
      OtherStepsLeaveTracker(policy, cfg[i], d.shared, a, input);
    }
  }

  lemma EverySupervisorIsDisciplined(policy: Policy, cfg: seq<AgentConfig>, roles: map<string, Option<int>>,
        events: seq<Event>, i: nat, input: Input)
    requires i < |cfg|
    ensures Disciplined(policy, cfg, Run(policy, cfg, roles, events), i, input)
  {
    SlotsAreConserved(policy, cfg, roles, events);
    SoundStatesAreDisciplined(policy, cfg, Run(policy, cfg, roles, events), i, input);
  }

  // ----- Epics and branches -----

  function MapEpic(assignments: EA.Assignments, worktree: string): string
  {
    if worktree in assignments then assignments[worktree] else ""
  }

  /** The worktree is on the branch of the epic, or on its own for none. */
  predicate OnBranchOf(cfg: AgentConfig, a: Agent, epic: string) { a.branch == Some(TargetBranch(cfg.worktree, epic)) }

  ghost predicate AgentEpicSound(cfg: AgentConfig, s: Shared, a: Agent)
  {
    var mapped := MapEpic(s.assignments, cfg.worktree);
    match a.pc
    case GotEpic(epic) => epic == mapped
    case Branching(epic) => epic == mapped && a.epic == mapped
    case Spawning(epic) => epic == mapped && a.epic == mapped && OnBranchOf(cfg, a, mapped)
    case Running(_) => a.epic == mapped && OnBranchOf(cfg, a, mapped)
    case Switching(epic) => epic == mapped
    case GivingBackSlot => cfg.worktree !in s.assignments
    case Transition => cfg.worktree !in s.assignments
    case Reassigning => cfg.worktree !in s.assignments
    case Gone => cfg.worktree !in s.assignments
    case _ => true
  }

  ghost predicate EpicsSound(cfg: seq<AgentConfig>, d: Daemon)
    requires |d.agents| == |cfg|
  {
    && EA.Injective(d.shared.assignments)
    && (forall w | w in d.shared.assignments :: exists i :: 0 <= i < |cfg| && cfg[i].worktree == w)
    && forall i | 0 <= i < |cfg| :: AgentEpicSound(cfg[i], d.shared, d.agents[i])
  }

  lemma AssignKeepsInjective(assignments: EA.Assignments, worktree: string, answer: EA.Answer)
    requires EA.Injective(assignments)
    ensures EA.Injective(EA.AfterAssign(assignments, worktree, answer))
    ensures MapEpic(EA.AfterAssign(assignments, worktree, answer), worktree) ==
            OrNone(EA.Assigned(assignments, worktree, answer))
  {
    if worktree !in assignments && answer.open.Some? {
      EA.AssignmentIsBestAndExclusive(assignments, worktree, answer);
    }
  }

  /** One agent's step as the assignment map sees it: only the agent's own entry may change. */
  ghost predicate EpicStep(cfg: AgentConfig, s: Shared, e: Effect)
  {
    && EA.Injective(e.shared.assignments) && AgentEpicSound(cfg, e.shared, e.agent)
    && (forall w | w != cfg.worktree ::
          && (w in e.shared.assignments <==> w in s.assignments)
          && (w in s.assignments ==> e.shared.assignments[w] == s.assignments[w]))
  }

  lemma StartStepEpics(cfg: AgentConfig, s: Shared, a: Agent, input: Input)
    requires Starting(a.pc) && EA.Injective(s.assignments) && AgentEpicSound(cfg, s, a)
    ensures EpicStep(cfg, s, StartStep(cfg, s, a, input))
  {
    if a.pc.Assigning? {
      AssignKeepsInjective(s.assignments, cfg.worktree, input.answer);
    }
  }

  lemma ExitStepEpics(cfg: AgentConfig, s: Shared, a: Agent, input: Input)
    requires HasExited(a.pc) && EA.Injective(s.assignments) && AgentEpicSound(cfg, s, a)
    ensures EpicStep(cfg, s, ExitStep(cfg, s, a, input))
  {
    if a.pc.Reassigning? {
      AssignKeepsInjective(s.assignments, cfg.worktree, input.answer);
    }
  }

  /** A step that leaves the assignments alone and goes where nothing is claimed about them. */
  lemma PlainStepEpics(cfg: AgentConfig, s: Shared, e: Effect)
    requires EA.Injective(s.assignments) && e.shared.assignments == s.assignments
    requires e.agent.pc.Top? || e.agent.pc.Backoff? || e.agent.pc.ErrorBackoff? || e.agent.pc.Returning?
    ensures EpicStep(cfg, s, e)
  {
  }

  lemma WaitingStepEpics(policy: Policy, cfg: AgentConfig, s: Shared, a: Agent, input: Input)
    requires !Starting(a.pc) && !HasExited(a.pc) && !a.pc.Deciding? && !a.pc.CountingError?
    requires EA.Injective(s.assignments) && AgentEpicSound(cfg, s, a)
    ensures EpicStep(cfg, s, PauseStep(policy, cfg, s, a, input))
  {
  }

  lemma PauseStepEpics(policy: Policy, cfg: AgentConfig, s: Shared, a: Agent, input: Input)
    requires !Starting(a.pc) && !HasExited(a.pc) && EA.Injective(s.assignments) && AgentEpicSound(cfg, s, a)
    ensures EpicStep(cfg, s, PauseStep(policy, cfg, s, a, input))
  {
    if a.pc.Deciding? {
      PlainStepEpics(cfg, s, Decide(policy, cfg, s, a, input.longRun));
    } else if a.pc.CountingError? {
      PlainStepEpics(cfg, s, CountError(policy, s, a));
    } else {
      WaitingStepEpics(policy, cfg, s, a, input);
    }
  }

  lemma AgentStepEpics(policy: Policy, cfg: AgentConfig, s: Shared, a: Agent, input: Input)
    requires EA.Injective(s.assignments) && AgentEpicSound(cfg, s, a)
    ensures EpicStep(cfg, s, AgentStep(policy, cfg, s, a, input))
  {
    if Starting(a.pc) {
      StartStepEpics(cfg, s, a, input);
    } else if HasExited(a.pc) {
      ExitStepEpics(cfg, s, a, input);
    } else {
      PauseStepEpics(policy, cfg, s, a, input);
    }
  }

  lemma EffectKeepsEpics(cfg: seq<AgentConfig>, d: Daemon, i: nat, effect: Effect)
    requires |d.agents| == |cfg| && ValidConfig(cfg) && i < |cfg| && EpicsSound(cfg, d)
    requires EpicStep(cfg[i], d.shared, effect)
    ensures EpicsSound(cfg, AfterEffect(d, i, effect))
  {
    var d' := AfterEffect(d, i, effect);
    forall w | w in d'.shared.assignments
      ensures exists k :: 0 <= k < |cfg| && cfg[k].worktree == w
    {
      if w == cfg[i].worktree {
        assert 0 <= i < |cfg| && cfg[i].worktree == w;
      }
    }
    forall j | 0 <= j < |cfg|
      ensures AgentEpicSound(cfg[j], d'.shared, d'.agents[j])
    {
      assert AgentEpicSound(cfg[j], d.shared, d.agents[j]);
    }
  }

  lemma EpicsSoundStep(policy: Policy, cfg: seq<AgentConfig>, d: Daemon, e: Event)
    requires |d.agents| == |cfg| && ValidConfig(cfg) && EpicsSound(cfg, d)
    ensures EpicsSound(cfg, Step(policy, cfg, d, e))
  {
    if e.Act? && e.i < |cfg| {
      AgentStepEpics(policy, cfg[e.i], d.shared, d.agents[e.i], e.input);
      EffectKeepsEpics(cfg, d, e.i, AgentStep(policy, cfg[e.i], d.shared, d.agents[e.i], e.input));
    } else {
      var d' := Step(policy, cfg, d, e);
      forall j | 0 <= j < |cfg|
        ensures AgentEpicSound(cfg[j], d'.shared, d'.agents[j])
      {
        assert AgentEpicSound(cfg[j], d.shared, d.agents[j]);
      }
    }
  }

  lemma {:induction false} EpicsStaySound(policy: Policy, cfg: seq<AgentConfig>, roles: map<string, Option<int>>,
        events: seq<Event>)
    requires ValidConfig(cfg)
    ensures EpicsSound(cfg, Run(policy, cfg, roles, events))
  {
    if events != [] {
      EpicsStaySound(policy, cfg, roles, events[..|events| - 1]);
      EpicsSoundStep(policy, cfg, Run(policy, cfg, roles, events[..|events| - 1]), events[|events| - 1]);
    }
  }

  lemma BranchesDiffer(w1: string, e1: string, w2: string, e2: string)
    requires ValidWorktree(w1) && ValidWorktree(w2) && w1 != w2
    requires e1 != "" || e2 != "" ==> e1 != e2
    ensures TargetBranch(w1, e1) != TargetBranch(w2, e2)
  {
    assert EpicBranch(e1)[4] == '/' && EpicBranch(e2)[4] == '/';
    assert EpicBranch(e1)[5..] == e1 && EpicBranch(e2)[5..] == e2;
    if TargetBranch(w1, e1) == w1 && |w1| > 4 {
      assert w1[4] in w1;
    }
    if TargetBranch(w2, e2) == w2 && |w2| > 4 {
      assert w2[4] in w2;
    }
  }

  /**
   With distinct valid worktree names, the worktrees of two live subprocesses are never on the same branch,
   and that of a live subprocess is on the branch of the epic the map holds for it, or on its own. This
   survives failed branch switches and spawns, which keep the assignment, and the rollback of a transition.
   */
  lemma LiveBranchesAreDistinct(policy: Policy, cfg: seq<AgentConfig>, roles: map<string, Option<int>>,
        events: seq<Event>, i: nat, j: nat)
    requires ValidConfig(cfg) && i < |cfg| && j < |cfg| && i != j
    requires Run(policy, cfg, roles, events).agents[i].pc.Running?
    ensures var d := Run(policy, cfg, roles, events);
            && d.agents[i].epic == MapEpic(d.shared.assignments, cfg[i].worktree)
            && d.agents[i].branch == Some(TargetBranch(cfg[i].worktree, d.agents[i].epic))
            && (d.agents[j].pc.Running? ==> d.agents[i].branch != d.agents[j].branch)
  {
    EpicsStaySound(policy, cfg, roles, events);
    var d := Run(policy, cfg, roles, events);
    assert AgentEpicSound(cfg[i], d.shared, d.agents[i]) && AgentEpicSound(cfg[j], d.shared, d.agents[j]);
    if d.agents[j].pc.Running? {
      assert cfg[i].worktree != cfg[j].worktree;
      BranchesDiffer(cfg[i].worktree, d.agents[i].epic, cfg[j].worktree, d.agents[j].epic);
    }
  }

  /** When every supervisor has returned, every slot is free and no epic is assigned. */
  lemma NothingIsLeftBehind(policy: Policy, cfg: seq<AgentConfig>, roles: map<string, Option<int>>, events: seq<Event>)
    requires ValidConfig(cfg)
    requires forall i | 0 <= i < |cfg| :: Run(policy, cfg, roles, events).agents[i].pc == Gone
    ensures var d := Run(policy, cfg, roles, events);
            && d.shared.assignments == map[]
            && forall role :: d.shared.tracker.Count(role) == 0
  {
    var d := Run(policy, cfg, roles, events);
    SlotsAreConserved(policy, cfg, roles, events);
    EpicsStaySound(policy, cfg, roles, events);
    forall i | 0 <= i < |cfg| ensures cfg[i].worktree !in d.shared.assignments {
      assert AgentEpicSound(cfg[i], d.shared, d.agents[i]);
    }
    forall role ensures Holders(cfg, d.agents, role) == {} {
      forall i | 0 <= i < |cfg| ensures !d.agents[i].holding {
        assert AgentSlotSound(cfg[i], d.shared, d.agents[i]);
      }
    }
  }

  // ----- Counters -----

  predicate Ended(pc: Pc) { pc.Returning? || pc.Gone? }

  /** How the counters stand to `settled`, the counters after the cycles decided so far. */
  ghost predicate CountersFollow(settled: Counters, a: Agent)
  {
    var exited := RestartPolicy.AfterExit(settled, a.counters.lastExitCode, a.counters.lastError);
    if HasExited(a.pc) then a.counters == exited && !a.switched
    else if a.pc.AfterExit? || a.pc.Deciding? then
      a.counters == if a.switched then exited.(restartCount := 0) else exited
    else if Ended(a.pc) then SameCounts(settled, a.counters)
    else a.counters == settled
  }

  /** What is left of the counters when the supervisor ends, be it between an exit and its decision. */
  predicate SameCounts(settled: Counters, c: Counters)
  {
    && c.backendIdx == settled.backendIdx && c.rateRetryCount == settled.rateRetryCount
    && (c.restartCount == settled.restartCount || c.restartCount == 0)
  }

  /** The machine's counters are what the recorded cycles make of them, and every cycle but a last one was survived. */
  ghost predicate CountersSound(policy: Policy, cfg: AgentConfig, a: Agent)
  {
    && CountersFollow(AfterCycles(policy, cfg.fallbacks, INITIAL, a.cycles), a)
    && (!Ended(a.pc) ==> Survives(policy, cfg.fallbacks, INITIAL, a.cycles))
    && (a.cycles != [] ==> Survives(policy, cfg.fallbacks, INITIAL, a.cycles[..|a.cycles| - 1]))
  }

  /** The two steps of the machine's decision are the cycle that the bound on cycles speaks of. */
  lemma DecideIsOneCycle(policy: Policy, cfg: AgentConfig, s: Shared, a: Agent, longRun: bool, settled: Counters)
    requires CountersFollow(settled, a) && a.pc.Deciding?
    ensures var cycle := Exit(a.counters.lastExitCode, a.counters.lastError, longRun, a.switched);
            var (c, again) := OneCycle(policy, cfg.fallbacks, settled, cycle);
            var a' := Decide(policy, cfg, s, a, longRun).agent;
            && a'.counters == c && a'.cycles == a.cycles + [cycle]
            && (a'.pc.Top? || a'.pc.Backoff? || a'.pc.Returning?) && (a'.pc.Returning? <==> !again)
  {
  }

  lemma DecideKeepsCounters(policy: Policy, cfg: AgentConfig, s: Shared, a: Agent, longRun: bool)
    requires CountersSound(policy, cfg, a) && a.pc.Deciding?
    ensures CountersSound(policy, cfg, Decide(policy, cfg, s, a, longRun).agent)
  {
    var cycle := Exit(a.counters.lastExitCode, a.counters.lastError, longRun, a.switched);
    DecideIsOneCycle(policy, cfg, s, a, longRun, AfterCycles(policy, cfg.fallbacks, INITIAL, a.cycles));
    OneMoreCycle(policy, cfg.fallbacks, a.cycles, cycle);
    assert (a.cycles + [cycle])[..|a.cycles|] == a.cycles;
  }

  lemma CountErrorKeepsCounters(policy: Policy, cfg: AgentConfig, s: Shared, a: Agent)
    requires CountersSound(policy, cfg, a) && a.pc.CountingError?
    ensures CountersSound(policy, cfg, CountError(policy, s, a).agent)
  {
    OneMoreCycle(policy, cfg.fallbacks, a.cycles, SpawnError);
    assert (a.cycles + [SpawnError])[..|a.cycles|] == a.cycles;
  }

  /** A step that decides nothing leaves the counters where they stand to the decided cycles. */
  ghost predicate DecidesNothing(settled: Counters, a: Agent, a': Agent)
  {
    CountersFollow(settled, a') && a'.cycles == a.cycles && (Ended(a.pc) ==> Ended(a'.pc))
  }

  lemma StartDecidesNothing(cfg: AgentConfig, s: Shared, a: Agent, input: Input, settled: Counters)
    requires CountersFollow(settled, a) && Starting(a.pc)
    ensures DecidesNothing(settled, a, StartStep(cfg, s, a, input).agent)
  {
  }

  lemma ExitDecidesNothing(cfg: AgentConfig, s: Shared, a: Agent, input: Input, settled: Counters)
    requires CountersFollow(settled, a) && HasExited(a.pc)
    ensures DecidesNothing(settled, a, ExitStep(cfg, s, a, input).agent)
  {
  }

  lemma PauseDecidesNothing(policy: Policy, cfg: AgentConfig, s: Shared, a: Agent, input: Input, settled: Counters)
    requires CountersFollow(settled, a) && !Starting(a.pc) && !HasExited(a.pc)
             && !a.pc.Deciding? && !a.pc.CountingError?
    ensures DecidesNothing(settled, a, PauseStep(policy, cfg, s, a, input).agent)
  {
  }

  lemma OtherStepsDecideNothing(policy: Policy, cfg: AgentConfig, s: Shared, a: Agent, input: Input, settled: Counters)
    requires CountersFollow(settled, a) && !a.pc.Deciding? && !a.pc.CountingError?
    ensures DecidesNothing(settled, a, AgentStep(policy, cfg, s, a, input).agent)
  {
    if Starting(a.pc) {
      StartDecidesNothing(cfg, s, a, input, settled);
    } else if HasExited(a.pc) {
      ExitDecidesNothing(cfg, s, a, input, settled);
    } else {
      PauseDecidesNothing(policy, cfg, s, a, input, settled);
    }
  }

  lemma AgentStepCounters(policy: Policy, cfg: AgentConfig, s: Shared, a: Agent, input: Input)
    requires CountersSound(policy, cfg, a)
    ensures CountersSound(policy, cfg, AgentStep(policy, cfg, s, a, input).agent)
  {
    if a.pc.Deciding? {
      DecideKeepsCounters(policy, cfg, s, a, input.longRun);
    } else if a.pc.CountingError? {
      CountErrorKeepsCounters(policy, cfg, s, a);
    } else {
      OtherStepsDecideNothing(policy, cfg, s, a, input, AfterCycles(policy, cfg.fallbacks, INITIAL, a.cycles));
    }
  }

  /** A step changes an agent by its own AgentStep, by waking or signalling it, or not at all. */
  lemma AgentAfterStep(policy: Policy, cfg: seq<AgentConfig>, d: Daemon, e: Event, i: nat)
    requires |d.agents| == |cfg| && i < |cfg|
    ensures var a :=
              if e.Act? && e.i == i then AgentStep(policy, cfg[i], d.shared, d.agents[i], e.input).agent
              else d.agents[i];
            Step(policy, cfg, d, e).agents[i] in {a, a.(pc := if a.pc == Asleep then WantSlot else a.pc), Signalled(a)}
  {
  }

  lemma SignalKeepsCounters(policy: Policy, cfg: AgentConfig, a: Agent)
    requires CountersSound(policy, cfg, a)
    ensures CountersSound(policy, cfg, Signalled(a))
  {
  }

  lemma WakingKeepsCounters(policy: Policy, cfg: AgentConfig, a: Agent)
    requires CountersSound(policy, cfg, a) && a.pc == Asleep
    ensures CountersSound(policy, cfg, a.(pc := WantSlot))
  {
  }

  lemma {:induction false} CountersStaySound(policy: Policy, cfg: seq<AgentConfig>, roles: map<string, Option<int>>,
        events: seq<Event>, i: nat)
    requires i < |cfg|
    ensures CountersSound(policy, cfg[i], Run(policy, cfg, roles, events).agents[i])
  {
    if events != [] {
      var d, e := Run(policy, cfg, roles, events[..|events| - 1]), events[|events| - 1];
      CountersStaySound(policy, cfg, roles, events[..|events| - 1], i);
      AgentAfterStep(policy, cfg, d, e, i);
      var a :=
        if e.Act? && e.i == i then AgentStep(policy, cfg[i], d.shared, d.agents[i], e.input).agent
        else d.agents[i];
      if e.Act? && e.i == i {
        AgentStepCounters(policy, cfg[i], d.shared, d.agents[i], e.input);
      }
      if a.pc == Asleep {
        WakingKeepsCounters(policy, cfg[i], a);
      }
      SignalKeepsCounters(policy, cfg[i], a);
    }
  }

  /**
   However the supervisors interleave: one that has met only failures has decided on at most
   (1 + fallbacks) * (maxRetries + 1) cycles, and after the last of them it goes round no more.
   */
  lemma SupervisorStopsAfterFailures(policy: Policy, cfg: seq<AgentConfig>, roles: map<string, Option<int>>,
        events: seq<Event>, i: nat)
    requires i < |cfg|
    requires OnlyFailures(policy, Run(policy, cfg, roles, events).agents[i].cycles)
    ensures var a := Run(policy, cfg, roles, events).agents[i];
            var bound := CycleBound(policy, cfg[i].fallbacks);
            |a.cycles| <= bound && (|a.cycles| == bound ==> Ended(a.pc))
  {
    CountersStaySound(policy, cfg, roles, events, i);
    FailingAgentStops(policy, cfg[i], Run(policy, cfg, roles, events).agents[i]);
  }

  lemma FailingAgentStops(policy: Policy, cfg: AgentConfig, a: Agent)
    requires CountersSound(policy, cfg, a)
    requires OnlyFailures(policy, a.cycles)
    ensures var bound := CycleBound(policy, cfg.fallbacks);
            |a.cycles| <= bound && (|a.cycles| == bound ==> Ended(a.pc))
  {
    var bound := CycleBound(policy, cfg.fallbacks);
    if |a.cycles| >= bound {
      FailuresStopTheSupervisor(policy, cfg.fallbacks, a.cycles);
    }
    if |a.cycles| > bound {
      assert bound >= 0;
      FailuresStopTheSupervisor(policy, cfg.fallbacks, a.cycles[..|a.cycles| - 1]);
    }
  }

  lemma SoundCountersAreInBounds(policy: Policy, cfg: AgentConfig, a: Agent)
    requires CountersSound(policy, cfg, a)
             && InBounds(AfterCycles(policy, cfg.fallbacks, INITIAL, a.cycles), cfg.fallbacks)
    ensures InBounds(a.counters, cfg.fallbacks)
  {
  }

  /**
   In every reachable state every agent's backend index names a backend, with at most 4 rate-limit
   retries while a fallback is left; also when its supervisor is returning or gone.
   */
  lemma EveryAgentStaysInBounds(policy: Policy, cfg: seq<AgentConfig>, roles: map<string, Option<int>>,
        events: seq<Event>, i: nat)
    requires i < |cfg|
    ensures InBounds(Run(policy, cfg, roles, events).agents[i].counters, cfg[i].fallbacks)
  {
    CountersStaySound(policy, cfg, roles, events, i);
    CountersStayInBounds(policy, cfg[i].fallbacks, Run(policy, cfg, roles, events).agents[i].cycles);
    SoundCountersAreInBounds(policy, cfg[i], Run(policy, cfg, roles, events).agents[i]);
  }
}
