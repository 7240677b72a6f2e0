/**
 The breaker over whole runs: requests in flight, a monotone clock, and resets.

 Every state change starts a new epoch and a request in flight carries the epoch that admitted it.
 The log of marks and the count of leaked probes are history that no decision looks at.
 */
module BreakerRuns {
  import opened Prelude
  import opened CircuitBreaker

  datatype Mark = Succeeded | Tripped | Restored

  datatype System = System(
    b: Fields, now: int, epoch: nat, inFlight: multiset<nat>, leaked: nat, log: seq<Mark>)

  datatype Event =
    | Tick(to: int)
    | Begin
    | End(ticket: nat, outcome: Outcome)
    | Reset

  function Start(now: int): System { System(Initial(now), now, 0, multiset{}, 0, [Restored]) }

  /** A change of state starts an epoch without leaks, and closing leaves a mark. */
  function Enter(s: System, b: Fields, marks: seq<Mark>): System
  {
    if b.state == s.b.state then s.(b := b, log := s.log + marks)
    else s.(b := b, epoch := s.epoch + 1, leaked := 0,
            log := s.log + marks + if b.state == Closed then [Restored] else [])
  }

  function Began(config: Config, s: System): System
  {
    if !Admits(config, s.b, s.now) then s
    else
      var s' := Enter(s, AfterBegin(config, s.b, s.now), []);
      s'.(inFlight := s'.inFlight + multiset{s'.epoch})
  }

  function Ended(config: Config, s: System, ticket: nat, outcome: Outcome): System
  {
    var returned := s.(inFlight := s.inFlight - multiset{ticket});
    var b := AfterEnd(config, s.b, s.now, outcome);
    match outcome
    case Success => Enter(returned, b, [Succeeded])
    case Trip => Enter(returned, b, [Tripped])
    case Uncounted =>
      if s.b.state == HalfOpen && ticket == s.epoch then returned.(leaked := s.leaked + 1) else returned
  }

  function Step(config: Config, s: System, e: Event): System
  {
    match e
    case Tick(to) => if to < s.now then s else s.(now := to)
    case Begin => Began(config, s)
    case End(ticket, outcome) => if ticket !in s.inFlight then s else Ended(config, s, ticket, outcome)
    case Reset =>
      var s' := Enter(s, AfterReset(s.b, s.now), []);
      if s.b.state == Closed then s'.(log := s.log + [Restored]) else s'
  }

  function After(config: Config, s: System, events: seq<Event>): System
  {
    if events == [] then s else Step(config, After(config, s, events[..|events| - 1]), events[|events| - 1])
  }

  ghost predicate NoReset(events: seq<Event>)
  {
    forall i | 0 <= i < |events| :: events[i] != Reset
  }

  ghost predicate Positive(config: Config)
  {
    config.failureThreshold > 0 && config.openTimeout > 0 && config.halfOpenMaxProbes > 0
  }

  // ----- Half-open slots -----

  ghost predicate SlotsSound(config: Config, s: System)
  {
    && (s.b.state == HalfOpen <==> s.b.halfOpenProbes > 0)
    && 0 <= s.b.halfOpenProbes <= config.halfOpenMaxProbes
    && (s.b.state == HalfOpen ==> s.b.halfOpenProbes == s.inFlight[s.epoch] + s.leaked)
    && (s.b.state != HalfOpen ==> s.leaked == 0)
    && (forall ticket | ticket in s.inFlight :: ticket <= s.epoch)
  }

  lemma BeganKeepsSlots(config: Config, s: System)
    requires Positive(config) && SlotsSound(config, s)
    ensures SlotsSound(config, Began(config, s))
  {
  }

  lemma EndedKeepsSlots(config: Config, s: System, ticket: nat, outcome: Outcome)
    requires Positive(config) && SlotsSound(config, s) && ticket in s.inFlight
    ensures SlotsSound(config, Ended(config, s, ticket, outcome))
  {
    assert forall other | other in (s.inFlight - multiset{ticket}) :: other in s.inFlight;
  }

  lemma SlotsSoundStep(config: Config, s: System, e: Event)
    requires Positive(config) && SlotsSound(config, s)
    ensures SlotsSound(config, Step(config, s, e))
  {
    if e.Begin? {
      BeganKeepsSlots(config, s);
    } else if e.End? && e.ticket in s.inFlight {
      EndedKeepsSlots(config, s, e.ticket, e.outcome);
    }
  }

  /**
   In every run, resets included: probe slots are taken exactly in half-open, never more than the
   limit, and each is held by a request in flight or was leaked by one that ended uncounted.
   */
  lemma {:induction false} SlotsAreAccountedFor(config: Config, now: int, events: seq<Event>)
    requires Positive(config)
    ensures SlotsSound(config, After(config, Start(now), events))
  {
    if events != [] {
      SlotsAreAccountedFor(config, now, events[..|events| - 1]);
      SlotsSoundStep(config, After(config, Start(now), events[..|events| - 1]), events[|events| - 1]);
    }
  }

  lemma {:induction false} NothingLeaksWhenEveryErrorTrips(config: Config, now: int, events: seq<Event>)
    requires forall i | 0 <= i < |events| :: events[i].End? ==> events[i].outcome != Uncounted
    ensures After(config, Start(now), events).leaked == 0
  {
    if events != [] {
      NothingLeaksWhenEveryErrorTrips(config, now, events[..|events| - 1]);
    }
  }

  /**
   With the default classification, where every error trips, a half-open breaker has exactly its own
   epoch's admissions in flight, none of them returned, and any completion of any request leaves half-open.
   */
  lemma HalfOpenSlotsWhenEveryErrorTrips(config: Config, now: int, events: seq<Event>, ticket: nat, outcome: Outcome)
    requires Positive(config) && outcome != Uncounted
    requires forall i | 0 <= i < |events| :: events[i].End? ==> events[i].outcome != Uncounted
    requires After(config, Start(now), events).b.state == HalfOpen
    ensures var s := After(config, Start(now), events);
            && s.inFlight[s.epoch] == s.b.halfOpenProbes >= 1
            && (ticket in s.inFlight ==> Step(config, s, End(ticket, outcome)).b.state != HalfOpen)
  {
    SlotsAreAccountedFor(config, now, events);
    NothingLeaksWhenEveryErrorTrips(config, now, events);
  }

  // ----- The wedge -----

  /** Half-open, every slot taken, and no request in flight whose end could free one. */
  ghost predicate Wedged(config: Config, s: System)
  {
    s.b.state == HalfOpen && s.b.halfOpenProbes >= config.halfOpenMaxProbes && s.inFlight == multiset{}
  }

  lemma {:induction false} WedgeLasts(config: Config, s: System, events: seq<Event>)
    requires Wedged(config, s) && NoReset(events)
    ensures Wedged(config, After(config, s, events))
    ensures !Admits(config, After(config, s, events).b, After(config, s, events).now)
  {
    if events != [] {
      WedgeLasts(config, s, events[..|events| - 1]);
    }
  }

  /** What gets an admission out of a breaker that is not wedged. */
  function WayOut(config: Config, s: System, ticket: nat): seq<Event>
  {
    if Admits(config, s.b, s.now) then []
    else if s.b.state == Open then [Tick(Max(s.now, s.b.openedAt + config.openTimeout))]
    else [End(ticket, Success)]
  }

  /**
   Without a reset a breaker can come to admit a request again if and only if it is not wedged. It gets
   wedged when uncounted errors have leaked every probe slot.
   */
  lemma NeverAdmitsAgainIffWedged(config: Config, s: System)
    requires Positive(config) && SlotsSound(config, s)
    ensures Wedged(config, s) <==>
            forall events | NoReset(events) ::
              !Admits(config, After(config, s, events).b, After(config, s, events).now)
    ensures Wedged(config, s) ==> s.leaked == config.halfOpenMaxProbes
  {
    if Wedged(config, s) {
      forall events | NoReset(events)
        ensures !Admits(config, After(config, s, events).b, After(config, s, events).now)
      {
        WedgeLasts(config, s, events);
      }
    } else {
      var ticket: nat := 0;
      if s.inFlight != multiset{} {
        ticket :| ticket in s.inFlight;
      }
      var events := WayOut(config, s, ticket);
      assert NoReset(events);
      assert After(config, s, []) == s;
      if events != [] {
        assert events[..0] == [];
        assert After(config, s, events) == Step(config, s, events[0]);
      }
      assert Admits(config, After(config, s, events).b, After(config, s, events).now);
    }
  }

  /** The failing family: a last free probe that ends uncounted, with nothing else in flight, wedges the breaker. */
  lemma UncountedProbeWedges(config: Config, s: System)
    requires Positive(config) && SlotsSound(config, s)
    requires s.inFlight == multiset{} && Admits(config, s.b, s.now)
    requires || (s.b.state == Open && config.halfOpenMaxProbes == 1)
             || (s.b.state == HalfOpen && s.b.halfOpenProbes == config.halfOpenMaxProbes - 1)
    ensures var probing := Step(config, s, Begin);
            Wedged(config, Step(config, probing, End(probing.epoch, Uncounted)))
  {
  }

  // ----- A wedge from the start -----

  lemma AfterOne(config: Config, s: System, events: seq<Event>, e: Event)
    ensures After(config, s, events + [e]) == Step(config, After(config, s, events), e)
  {
    assert (events + [e])[..|events|] == events;
  }

  lemma {:induction false} AfterBoth(config: Config, s: System, events: seq<Event>, more: seq<Event>)
    ensures After(config, s, events + more) == After(config, After(config, s, events), more)
  {
    if more == [] {
      assert events + more == events;
    } else {
      var init, e := more[..|more| - 1], more[|more| - 1];
      AfterBoth(config, s, events, init);
      LastOfBoth(events, more);
      AfterOne(config, s, events + init, e);
    }
  }

  lemma LastOfBoth(events: seq<Event>, more: seq<Event>)
    requires more != []
    ensures events + more == (events + more[..|more| - 1]) + [more[|more| - 1]]
  {
  }

  /** One request, ended before anything else happens. */
  function Served(config: Config, s: System, ticket: nat, outcome: Outcome): System
  {
    Step(config, Step(config, s, Begin), End(ticket, outcome))
  }

  /** n requests one after the other, each ending as told. */
  function OneByOne(ticket: nat, outcome: Outcome, n: nat): seq<Event>
  {
    if n == 0 then [] else OneByOne(ticket, outcome, n - 1) + [Begin] + [End(ticket, outcome)]
  }

  lemma OneMoreServed(config: Config, s: System, ticket: nat, outcome: Outcome, n: nat)
    requires n > 0
    ensures After(config, s, OneByOne(ticket, outcome, n)) ==
            Served(config, After(config, s, OneByOne(ticket, outcome, n - 1)), ticket, outcome)
  {
    AfterOne(config, s, OneByOne(ticket, outcome, n - 1), Begin);
    AfterOne(config, s, OneByOne(ticket, outcome, n - 1) + [Begin], End(ticket, outcome));
  }

  lemma {:induction false} OneByOneNeverResets(ticket: nat, outcome: Outcome, n: nat)
    ensures NoReset(OneByOne(ticket, outcome, n))
  {
    if n > 0 {
      OneByOneNeverResets(ticket, outcome, n - 1);
    }
  }

  /** After n trips in a row from the start. */
  ghost predicate HasTripped(config: Config, s: System, now: int, n: nat)
  {
    && s.inFlight == multiset{} && s.now == now && s.b.consecutiveFail == n
    && if n < config.failureThreshold then s.b.state == Closed && s.epoch == 0 else IsOpen(s, now)
  }

  ghost predicate IsOpen(s: System, since: int)
  {
    s.b.state == Open && s.epoch == 1 && s.b.openedAt == since && s.inFlight == multiset{}
  }

  lemma OneMoreTrip(config: Config, s: System, now: int, n: nat)
    requires Positive(config) && n < config.failureThreshold && HasTripped(config, s, now, n)
    ensures HasTripped(config, Served(config, s, 0, Trip), now, n + 1)
  {
    var begun := Step(config, s, Begin);
    assert begun.inFlight == multiset{0} && begun.b == s.b && begun.epoch == 0;
    assert begun.inFlight - multiset{0} == multiset{};
  }

  lemma {:induction false} TripsOneByOne(config: Config, now: int, n: nat)
    requires Positive(config) && n <= config.failureThreshold
    ensures HasTripped(config, After(config, Start(now), OneByOne(0, Trip, n)), now, n)
  {
    if n > 0 {
      TripsOneByOne(config, now, n - 1);
      OneMoreTrip(config, After(config, Start(now), OneByOne(0, Trip, n - 1)), now, n - 1);
      OneMoreServed(config, Start(now), 0, Trip, n);
    }
  }

  /** Half-open with n slots leaked and nothing in flight. */
  ghost predicate HasLeaked(s: System, n: nat)
  {
    s.b.state == HalfOpen && s.epoch == 2 && s.inFlight == multiset{} && s.b.halfOpenProbes == n
  }

  lemma OneMoreLeak(config: Config, s: System, n: nat)
    requires Positive(config) && n < config.halfOpenMaxProbes
    requires if n == 0 then IsOpen(s, s.b.openedAt) && s.now - s.b.openedAt >= config.openTimeout else HasLeaked(s, n)
    ensures HasLeaked(Served(config, s, 2, Uncounted), n + 1)
  {
    var begun := Step(config, s, Begin);
    assert begun.inFlight == multiset{2} && begun.epoch == 2;
    assert begun.inFlight - multiset{2} == multiset{};
  }

  lemma {:induction false} ProbesOneByOne(config: Config, s: System, n: nat)
    requires Positive(config) && 1 <= n <= config.halfOpenMaxProbes
    requires IsOpen(s, s.b.openedAt) && s.now - s.b.openedAt >= config.openTimeout
    ensures HasLeaked(After(config, s, OneByOne(2, Uncounted, n)), n)
  {
    if n > 1 {
      ProbesOneByOne(config, s, n - 1);
    }
    OneMoreLeak(config, After(config, s, OneByOne(2, Uncounted, n - 1)), n - 1);
    OneMoreServed(config, s, 2, Uncounted, n);
  }

  lemma TrippingRun(config: Config, now: int) returns (trips: seq<Event>)
    requires Positive(config)
    ensures NoReset(trips) && HasTripped(config, After(config, Start(now), trips), now, config.failureThreshold)
  {
    trips := OneByOne(0, Trip, config.failureThreshold);
    OneByOneNeverResets(0, Trip, config.failureThreshold);
    TripsOneByOne(config, now, config.failureThreshold);
  }

  lemma LeakingRun(config: Config, s: System) returns (probes: seq<Event>)
    requires Positive(config) && IsOpen(s, s.b.openedAt) && s.now - s.b.openedAt >= config.openTimeout
    ensures NoReset(probes) && Wedged(config, After(config, s, probes))
  {
    probes := OneByOne(2, Uncounted, config.halfOpenMaxProbes);
    OneByOneNeverResets(2, Uncounted, config.halfOpenMaxProbes);
    ProbesOneByOne(config, s, config.halfOpenMaxProbes);
  }

  lemma OpenPastTimeout(config: Config, s: System, now: int)
    requires Positive(config) && HasTripped(config, s, now, config.failureThreshold)
    ensures var s' := Step(config, s, Tick(now + config.openTimeout));
            IsOpen(s', s'.b.openedAt) && s'.now - s'.b.openedAt >= config.openTimeout
  {
  }

  /**
   Every breaker can get wedged, whatever its settings: trips up to the threshold, the open timeout, and
   then as many uncounted probes as there are slots lead there from the start, without a reset.
   */
  lemma EveryBreakerCanWedge(config: Config, now: int) returns (events: seq<Event>)
    requires Positive(config)
    ensures NoReset(events) && Wedged(config, After(config, Start(now), events))
  {
    var trips := TrippingRun(config, now);
    var tripped, tick := After(config, Start(now), trips), Tick(now + config.openTimeout);
    OpenPastTimeout(config, tripped, now);
    var probes := LeakingRun(config, Step(config, tripped, tick));
    events := trips + [tick] + probes;
    AfterOne(config, Start(now), trips, tick);
    AfterBoth(config, Start(now), trips + [tick], probes);
  }

  // ----- Open means open -----

  /** The step that opens the breaker. */
  predicate Opens(config: Config, s: System, e: Event)
  {
    s.b.state != Open && Step(config, s, e).b.state == Open
  }

  lemma OpenStep(config: Config, s: System, e: Event, since: int)
    requires s.b.state == Open && s.b.openedAt == since && e != Reset
    requires s.now < since + config.openTimeout
    ensures Step(config, s, e).b.state == Open && Step(config, s, e).b.openedAt == since
  {
  }

  lemma ClockStep(config: Config, s: System, e: Event)
    ensures s.now <= Step(config, s, e).now
  {
  }

  lemma OpeningStep(config: Config, s: System, e: Event)
    requires Opens(config, s, e)
    ensures Step(config, s, e).b.openedAt == s.now
  {
  }

  lemma {:induction false} StaysOpen(config: Config, s: System, since: int, later: seq<Event>)
    requires s.b.state == Open && s.b.openedAt == since && NoReset(later)
    requires After(config, s, later).now < since + config.openTimeout
    ensures After(config, s, later).b.state == Open && After(config, s, later).b.openedAt == since
  {
    if later != [] {
      var init, last := later[..|later| - 1], later[|later| - 1];
      ClockStep(config, After(config, s, init), last);
      StaysOpen(config, s, since, init);
      OpenStep(config, After(config, s, init), last, since);
    }
  }

  /**
   After a trip at time T, whatever ends or begins meanwhile, every request before T + openTimeout is
   turned away; the first that comes at or after T + openTimeout with the breaker still open is let through.
   */
  lemma NothingIsAdmittedWhileOpen(config: Config, s: System, e: Event, later: seq<Event>)
    requires Opens(config, s, e) && NoReset(later)
    ensures var s' := After(config, Step(config, s, e), later);
            && (s'.now < s.now + config.openTimeout ==> !Admits(config, s'.b, s'.now) && Step(config, s', Begin) == s')
            && (s'.b.state == Open && s'.b.openedAt == s.now && s'.now >= s.now + config.openTimeout ==>
                  Admits(config, s'.b, s'.now))
  {
    var s' := After(config, Step(config, s, e), later);
    if s'.now < s.now + config.openTimeout {
      OpeningStep(config, s, e);
      StaysOpen(config, Step(config, s, e), s.now, later);
    }
  }

  // ----- The failure streak -----

  /** Tripping completions at the end of the log, back to the last success or restoration. */
  function Streak(log: seq<Mark>): nat
  {
    if log == [] || log[|log| - 1] != Tripped then 0 else 1 + Streak(log[..|log| - 1])
  }

  lemma StreakAfterMark(log: seq<Mark>, mark: Mark)
    ensures Streak(log + [mark]) == if mark == Tripped then Streak(log) + 1 else 0
  {
    assert (log + [mark])[..|log|] == log;
  }

  lemma EnterStreak(s: System, b: Fields, marks: seq<Mark>)
    requires marks == [] || marks == [Succeeded] || marks == [Tripped]
    ensures Streak(Enter(s, b, marks).log) ==
            if b.state != s.b.state && b.state == Closed then 0
            else if marks == [] then Streak(s.log)
            else if marks == [Tripped] then Streak(s.log) + 1
            else 0
  {
    if marks == [] {
      assert s.log + marks == s.log && s.log + [] == s.log;
    } else {
      StreakAfterMark(s.log, marks[0]);
      assert s.log + marks + [] == s.log + marks;
    }
    StreakAfterMark(s.log + marks, Restored);
  }

  /** While closed, the counter is the streak and has not reached the threshold. */
  ghost predicate StreakSound(config: Config, s: System)
  {
    s.b.state == Closed ==> s.b.consecutiveFail == Streak(s.log) < config.failureThreshold
  }

  lemma EndedStreak(config: Config, s: System, ticket: nat, outcome: Outcome)
    requires Positive(config) && StreakSound(config, s)
    ensures StreakSound(config, Ended(config, s, ticket, outcome))
    ensures s.b.state == Closed ==>
              (Ended(config, s, ticket, outcome).b.state != Closed <==>
               outcome == Trip && Streak(s.log) + 1 == config.failureThreshold)
  {
    var returned := s.(inFlight := s.inFlight - multiset{ticket});
    EnterStreak(returned, AfterEnd(config, s.b, s.now, outcome), [Succeeded]);
    EnterStreak(returned, AfterEnd(config, s.b, s.now, outcome), [Tripped]);
  }

  lemma StreakStep(config: Config, s: System, e: Event)
    requires Positive(config) && StreakSound(config, s)
    ensures StreakSound(config, Step(config, s, e))
    ensures s.b.state == Closed ==>
              (Step(config, s, e).b.state != Closed <==>
               e.End? && e.ticket in s.inFlight && e.outcome == Trip && Streak(s.log) + 1 == config.failureThreshold)
  {
    match e
    case Tick(to) =>
    case Begin => EnterStreak(s, AfterBegin(config, s.b, s.now), []);
    case End(ticket, outcome) => EndedStreak(config, s, ticket, outcome);
    case Reset =>
      EnterStreak(s, AfterReset(s.b, s.now), []);
      StreakAfterMark(Enter(s, AfterReset(s.b, s.now), []).log, Restored);
  }

  lemma {:induction false} StreakStaysSound(config: Config, now: int, events: seq<Event>)
    requires Positive(config)
    ensures StreakSound(config, After(config, Start(now), events))
  {
    if events != [] {
      StreakStaysSound(config, now, events[..|events| - 1]);
      StreakStep(config, After(config, Start(now), events[..|events| - 1]), events[|events| - 1]);
    }
  }

  /** A closed breaker opens on exactly the threshold-th tripping completion in a row. */
  lemma OpensExactlyAtThreshold(config: Config, now: int, events: seq<Event>, e: Event)
    requires Positive(config)
    requires After(config, Start(now), events).b.state == Closed
    ensures var s := After(config, Start(now), events);
            var s' := Step(config, s, e);
            && s.b.consecutiveFail == Streak(s.log)
            && (s'.b.state != Closed <==>
                e.End? && e.ticket in s.inFlight && e.outcome == Trip && Streak(s.log) + 1 == config.failureThreshold)
  {
    StreakStaysSound(config, now, events);
    StreakStep(config, After(config, Start(now), events), e);
  }
}
