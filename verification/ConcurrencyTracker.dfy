/**
 Per-role concurrency limits: a monitor with one condition variable. A caller of Acquire tests for
 a slot with the lock held, and either takes it, is refused, or goes to sleep; Release and Close
 wake every sleeper, and a woken caller tests again.
 */
module ConcurrencyTracker {
  import opened Prelude

  type Role = string

  datatype State = State(counts: map<Role, int>, limits: map<Role, int>, closed: bool) {

    function Count(role: Role): int { if role in counts then counts[role] else 0 }

    /** The limit of a role; 0 means none. */
    function Limit(role: Role): int { if role in limits then limits[role] else 0 }

    predicate Full(role: Role) { Limit(role) != 0 && Count(role) >= Limit(role) }

    predicate Valid()
    {
      && (forall r | r in limits :: limits[r] > 0)
      && (forall r | r in counts :: counts[r] >= 0 && (Limit(r) > 0 ==> counts[r] <= Limit(r)))
    }
  }

  datatype Verdict = Granted | Refused | Wait

  function Fresh(roles: map<Role, Option<int>>): State
  {
    State(map[], map r | r in roles && roles[r].Some? && roles[r].value > 0 :: roles[r].value, false)
  }

  /** One pass through Acquire with the lock held. */
  function AcquireVerdict(s: State, role: Role): Verdict
  {
    if s.closed then Refused else if s.Full(role) then Wait else Granted
  }

  function Taken(s: State, role: Role): State
  {
    s.(counts := s.counts[role := s.Count(role) + 1])
  }

  function AfterAcquire(s: State, role: Role): State
  {
    if AcquireVerdict(s, role) == Granted then Taken(s, role) else s
  }

  /** Release with nothing held resets the count and wakes nobody. */
  function AfterRelease(s: State, role: Role): State
  {
    s.(counts := s.counts[role := Max(s.Count(role) - 1, 0)])
  }

  predicate ReleaseWakes(s: State, role: Role) { s.Count(role) > 0 }

  class Tracker {
    var counts: map<Role, int>
    var limits: map<Role, int>
    var closed: bool

    ghost function Abstract(): State
      reads this
    {
      State(counts, limits, closed)
    }

    constructor (roles: map<Role, Option<int>>)
      ensures Abstract() == Fresh(roles) && Abstract().Valid()
    {
      counts := map[];
      limits := map r | r in roles && roles[r].Some? && roles[r].value > 0 :: roles[r].value;
      closed := false;
    }

    /** Acquire up to the point where it would sleep on the condition variable. */
    method TestForSlot(role: Role) returns (verdict: Verdict)
      modifies this
      ensures verdict == AcquireVerdict(old(Abstract()), role)
      ensures Abstract() == AfterAcquire(old(Abstract()), role)
      ensures old(Abstract().Valid()) ==> Abstract().Valid()
    {
      var limit := if role in limits then limits[role] else 0;
      var count := if role in counts then counts[role] else 0;
      if limit == 0 {
        if closed {
          return Refused;
        }
        counts := counts[role := count + 1];
        return Granted;
      }
      if count >= limit && !closed {
        return Wait;
      }
      if closed {
        return Refused;
      }
      counts := counts[role := count + 1];
      return Granted;
    }

    method TryAcquire(role: Role) returns (ok: bool)
      modifies this
      ensures ok <==> AcquireVerdict(old(Abstract()), role) == Granted
      ensures Abstract() == AfterAcquire(old(Abstract()), role)
      ensures old(Abstract().Valid()) ==> Abstract().Valid()
    {
      if closed {
        return false;
      }
      var limit := if role in limits then limits[role] else 0;
      var count := if role in counts then counts[role] else 0;
      if limit == 0 {
        counts := counts[role := count + 1];
        return true;
      }
      if count >= limit {
        return false;
      }
      counts := counts[role := count + 1];
      return true;
    }

    method Release(role: Role) returns (broadcast: bool)
      modifies this
      ensures Abstract() == AfterRelease(old(Abstract()), role)
      ensures broadcast == ReleaseWakes(old(Abstract()), role)
      ensures old(Abstract().Valid()) ==> Abstract().Valid()
    {
      var count := if role in counts then counts[role] else 0;
      if count <= 0 {
        counts := counts[role := 0];
        return false;
      }
      counts := counts[role := count - 1];
      return true;
    }

    method Close() returns (broadcast: bool)
      modifies this
      ensures Abstract() == old(Abstract()).(closed := true)
      ensures broadcast == !old(closed)
    {
      if closed {
        return false;
      }
      closed := true;
      return true;
    }
  }

  // ----- Any number of callers -----

  datatype Caller = Testing(role: Role) | Asleep(role: Role)

  datatype Monitor = Monitor(state: State, callers: map<nat, Caller>)

  datatype Call =
    | Enter(id: nat, role: Role)
    | Test(id: nat)
    | Try(role: Role)
    | Release(role: Role)
    | Close

  function Woken(callers: map<nat, Caller>): map<nat, Caller>
  {
    map id | id in callers :: Testing(callers[id].role)
  }

  /** The verdict of the step is what the caller is told; None when nobody is told anything. */
  function Step(m: Monitor, call: Call): (Monitor, Option<Verdict>)
  {
    match call
    case Enter(id, role) =>
      if id in m.callers then (m, None) else (m.(callers := m.callers[id := Testing(role)]), None)
    case Test(id) =>
      if !(id in m.callers && m.callers[id].Testing?) then (m, None)
      else
        var role := m.callers[id].role;
        var verdict := AcquireVerdict(m.state, role);
        (Monitor(AfterAcquire(m.state, role),
                 if verdict == Wait then m.callers[id := Asleep(role)] else m.callers - {id}),
         Some(verdict))
    case Try(role) =>
      (m.(state := AfterAcquire(m.state, role)),
       Some(if AcquireVerdict(m.state, role) == Granted then Granted else Refused))
    case Release(role) =>
      (Monitor(AfterRelease(m.state, role), if ReleaseWakes(m.state, role) then Woken(m.callers) else m.callers), None)
    case Close =>
      (Monitor(m.state.(closed := true), if m.state.closed then m.callers else Woken(m.callers)), None)
  }

  function Run(m: Monitor, calls: seq<Call>): Monitor
  {
    if calls == [] then m else Step(Run(m, calls[..|calls| - 1]), calls[|calls| - 1]).0
  }

  /** Nobody sleeps on a free slot or on a closed tracker, and no role is over its limit. */
  ghost predicate Sound(m: Monitor)
  {
    && m.state.Valid()
    && forall id | id in m.callers && m.callers[id].Asleep? :: m.state.Full(m.callers[id].role) && !m.state.closed
  }

  lemma SoundStep(m: Monitor, call: Call)
    requires Sound(m)
    ensures Sound(Step(m, call).0)
  {
  }

  /** No lost wakeup: whatever the callers do, also releases that match no acquire, and in whatever order. */
  lemma {:induction false} NoLostWakeup(roles: map<Role, Option<int>>, calls: seq<Call>)
    ensures Sound(Run(Monitor(Fresh(roles), map[]), calls))
  {
    if calls != [] {
      NoLostWakeup(roles, calls[..|calls| - 1]);
      SoundStep(Run(Monitor(Fresh(roles), map[]), calls[..|calls| - 1]), calls[|calls| - 1]);
    }
  }

  /** Once Close has run, no acquire succeeds and no caller is asleep, for ever. */
  lemma {:induction false} CloseIsFinal(roles: map<Role, Option<int>>, calls: seq<Call>, i: nat, call: Call)
    requires i < |calls| && calls[i] == Close
    ensures var m := Run(Monitor(Fresh(roles), map[]), calls);
            && m.state.closed
            && (forall id | id in m.callers :: m.callers[id].Testing?)
            && Step(m, call).1 != Some(Granted) && Step(m, call).1 != Some(Wait)
  {
    var start := Monitor(Fresh(roles), map[]);
    var init := calls[..|calls| - 1];
    NoLostWakeup(roles, calls);
    if i < |calls| - 1 {
      CloseIsFinal(roles, init, i, call);
    }
    assert Run(start, calls) == Step(Run(start, init), calls[|calls| - 1]).0;
  }

  // ----- What callers are told -----

  /** The role has no limit, or fewer callers hold a slot of it than that. */
  predicate HasRoom(s: State, role: Role)
  {
    role !in s.limits || s.limits[role] == 0 || (if role in s.counts then s.counts[role] else 0) < s.limits[role]
  }

  predicate IsTesting(m: Monitor, id: nat) { id in m.callers && m.callers[id].Testing? }

  /**
   In whatever state a caller tests: it is refused if and only if the tracker is closed, granted and
   counted if and only if the tracker is open and the role has room, and otherwise goes to sleep.
   */
  lemma CallerIsToldIff(m: Monitor, id: nat)
    requires IsTesting(m, id)
    ensures var role, (m', verdict) := m.callers[id].role, Step(m, Test(id));
            && (verdict == Some(Refused) <==> m.state.closed)
            && (verdict == Some(Granted) <==> !m.state.closed && HasRoom(m.state, role))
            && (id in m'.callers <==> !m.state.closed && !HasRoom(m.state, role))
            && (id in m'.callers ==> verdict == Some(Wait) && m'.callers[id] == Asleep(role))
            && m'.callers - {id} == m.callers - {id}
            && (verdict == Some(Granted) ==> CountsOneMore(m.state, m'.state, role))
            && (verdict != Some(Granted) ==> m'.state == m.state)
  {
  }

  /** A caller that comes tests next, and asking twice changes nothing. */
  lemma CallerComesToTest(m: Monitor, id: nat, role: Role)
    ensures var m' := Step(m, Enter(id, role)).0;
            && m'.state == m.state && m'.callers - {id} == m.callers - {id}
            && id in m'.callers && m'.callers[id] == if id in m.callers then m.callers[id] else Testing(role)
  {
  }

  /** One more slot of the role is taken, and nothing else changes. */
  predicate CountsOneMore(s: State, s': State, role: Role)
  {
    && role in s'.counts && s'.counts[role] == (if role in s.counts then s.counts[role] else 0) + 1
    && s'.counts - {role} == s.counts - {role} && s'.limits == s.limits && s'.closed == s.closed
  }

  /** A try is granted under the same condition and never sleeps. */
  lemma TryIsGrantedIff(m: Monitor, role: Role)
    ensures var (m', verdict) := Step(m, Try(role));
            && (verdict == Some(Granted) <==> !m.state.closed && HasRoom(m.state, role))
            && (verdict == Some(Granted) ==> CountsOneMore(m.state, m'.state, role))
            && (verdict != Some(Granted) ==> verdict == Some(Refused) && m'.state == m.state)
            && m'.callers == m.callers
  {
  }

  /** Slots of the role that are held: granted and not given back, where releasing nothing counts for nothing. */
  function Held(m: Monitor, calls: seq<Call>, role: Role): nat
  {
    if calls == [] then 0
    else
      var init, call := calls[..|calls| - 1], calls[|calls| - 1];
      var before := Held(m, init, role);
      match call
      case Release(r) => if r == role && before > 0 then before - 1 else before
      case Try(r) => if r == role && Step(Run(m, init), call).1 == Some(Granted) then before + 1 else before
      case Test(id) =>
        var now := Run(m, init);
        if IsTesting(now, id) && now.callers[id].role == role && Step(now, call).1 == Some(Granted) then before + 1
        else before
      case _ => before
  }

  lemma HeldStep(m: Monitor, call: Call, role: Role)
    requires Sound(m)
    ensures var (m', verdict) := Step(m, call);
            && m'.state.limits == m.state.limits
            && m'.state.Count(role) ==
               (if call == Release(role) then Max(m.state.Count(role) - 1, 0)
                else if call == Try(role) && verdict == Some(Granted) then m.state.Count(role) + 1
                else if call.Test? && IsTesting(m, call.id) && m.callers[call.id].role == role
                  && verdict == Some(Granted) then m.state.Count(role) + 1
                else m.state.Count(role))
  {
  }

  /** In every run the count of a role is the number of its slots held, and the limits stay as configured. */
  lemma {:induction false} CountIsHeld(roles: map<Role, Option<int>>, calls: seq<Call>, role: Role)
    ensures var m := Run(Monitor(Fresh(roles), map[]), calls);
            && m.state.Count(role) == Held(Monitor(Fresh(roles), map[]), calls, role)
            && m.state.limits == Fresh(roles).limits
  {
    if calls != [] {
      var init := calls[..|calls| - 1];
      NoLostWakeup(roles, init);
      CountIsHeld(roles, init, role);
      HeldStep(Run(Monitor(Fresh(roles), map[]), init), calls[|calls| - 1], role);
    }
  }

  /** The limit configured for a role, 0 for none. */
  function Configured(roles: map<Role, Option<int>>, role: Role): int
  {
    if role in roles && roles[role].Some? then Max(roles[role].value, 0) else 0
  }

  /**
   So over every run: as long as the tracker is open, a caller that tests is granted if and only if its
   role has no configured limit or fewer slots of it are held than that; otherwise it sleeps.
   */
  lemma GrantedIffSlotIsFree(roles: map<Role, Option<int>>, calls: seq<Call>, id: nat)
    requires IsTesting(Run(Monitor(Fresh(roles), map[]), calls), id)
    ensures var start := Monitor(Fresh(roles), map[]);
            var m := Run(start, calls);
            var role, verdict := m.callers[id].role, Step(m, Test(id)).1;
            var limit := Configured(roles, role);
            && (verdict == Some(Refused) <==> m.state.closed)
            && (!m.state.closed ==>
                  (verdict == Some(Granted) <==> limit == 0 || Held(start, calls, role) < limit))
            && (verdict != Some(Refused) && verdict != Some(Granted) ==>
                  verdict == Some(Wait) && Step(m, Test(id)).0.callers[id] == Asleep(role))
  {
    var m := Run(Monitor(Fresh(roles), map[]), calls);
    CountIsHeld(roles, calls, m.callers[id].role);
    CallerIsToldIff(m, id);
  }

  /** In every run, a release of the role a caller sleeps on wakes it, and if it tests next it gets the slot. */
  lemma ReleaseServesASleeper(roles: map<Role, Option<int>>, calls: seq<Call>, id: nat)
    requires var m := Run(Monitor(Fresh(roles), map[]), calls); id in m.callers && m.callers[id].Asleep?
    ensures var m := Run(Monitor(Fresh(roles), map[]), calls);
            var released := Step(m, Release(m.callers[id].role)).0;
            IsTesting(released, id) && Step(released, Test(id)).1 == Some(Granted)
  {
    NoLostWakeup(roles, calls);
  }

  /** Closing wakes every sleeper to be refused. */
  lemma CloseRefusesASleeper(roles: map<Role, Option<int>>, calls: seq<Call>, id: nat)
    requires var m := Run(Monitor(Fresh(roles), map[]), calls); id in m.callers && m.callers[id].Asleep?
    ensures var closed := Step(Run(Monitor(Fresh(roles), map[]), calls), Close).0;
            IsTesting(closed, id) && Step(closed, Test(id)).1 == Some(Refused)
  {
    NoLostWakeup(roles, calls);
  }

  /** A release takes one from a positive count, and then wakes every sleeper; otherwise it resets the count. */
  lemma ReleaseWakesIff(m: Monitor, role: Role)
    ensures var m' := Step(m, Release(role)).0;
            var held := if role in m.state.counts then m.state.counts[role] else 0;
            && m'.state == m.state.(counts := m.state.counts[role := if held > 0 then held - 1 else 0])
            && m'.callers.Keys == m.callers.Keys
            && forall id | id in m.callers ::
                 m'.callers[id] == if held > 0 then Testing(m.callers[id].role) else m.callers[id]
  {
  }
}
