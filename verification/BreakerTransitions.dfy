/**
 The transitions of the breaker read off its runs: which event leads from which state to which, what is
 admitted before and after, and what the counters count.
 */
module BreakerTransitions {
  import opened Prelude
  import opened CircuitBreaker
  import opened BreakerRuns

  // ----- Settings -----

  /** A breaker is made with positive settings: its own, or 5 failures, 30 seconds and one probe. */
  lemma DefaultsApply(config: Config)
    ensures var c := Normalized(config);
            && Positive(c)
            && c.failureThreshold == (if config.failureThreshold > 0 then config.failureThreshold else 5)
            && c.openTimeout == (if config.openTimeout > 0 then config.openTimeout else 30_000_000_000)
            && c.halfOpenMaxProbes == (if config.halfOpenMaxProbes > 0 then config.halfOpenMaxProbes else 1)
  {
  }

  // ----- Admission -----

  /** A request that begins is admitted when it is in flight afterwards. */
  predicate IsAdmitted(config: Config, s: System)
  {
    |Step(config, s, Begin).inFlight| == |s.inFlight| + 1
  }

  /**
   A request is admitted if and only if the breaker is closed, has been open for the timeout, or is
   half-open with a probe slot free; one that is not changes nothing.
   */
  lemma AdmittedIff(config: Config, s: System)
    ensures IsAdmitted(config, s) <==>
            || s.b.state == Closed
            || (s.b.state == Open && s.now >= s.b.openedAt + config.openTimeout)
            || (s.b.state == HalfOpen && s.b.halfOpenProbes < config.halfOpenMaxProbes)
    ensures !IsAdmitted(config, s) ==> Step(config, s, Begin) == s
  {
  }

  // ----- Changes of state -----

  /** The event is the return, with this outcome, of a request in flight. */
  predicate Returns(s: System, e: Event, outcome: Outcome)
  {
    e.End? && e.ticket in s.inFlight && e.outcome == outcome
  }

  lemma FieldsAfterReturn(config: Config, s: System, ticket: nat, outcome: Outcome)
    ensures Ended(config, s, ticket, outcome).b == AfterEnd(config, s.b, s.now, outcome)
  {
  }

  lemma StateAfterReturn(config: Config, s: System, ticket: nat, outcome: Outcome)
    ensures Ended(config, s, ticket, outcome).b.state ==
            match s.b.state
            case Closed =>
              if outcome == Trip && s.b.consecutiveFail + 1 >= config.failureThreshold then Open else Closed
            case Open => Open
            case HalfOpen => if outcome == Trip then Open else if outcome == Success then Closed else HalfOpen
  {
    FieldsAfterReturn(config, s, ticket, outcome);
  }

  lemma StateAfterBegin(config: Config, s: System)
    ensures Step(config, s, Begin).b.state ==
            if s.b.state == Open && s.now >= s.b.openedAt + config.openTimeout then HalfOpen else s.b.state
  {
  }

  lemma StampsAfterReturn(config: Config, s: System, ticket: nat, outcome: Outcome)
    ensures var s' := Ended(config, s, ticket, outcome);
            && s'.b.lastStateChange == (if s'.b.state == s.b.state then s.b.lastStateChange else s.now)
            && s'.b.openedAt == if s'.b.state == Open && s.b.state != Open then s.now else s.b.openedAt
  {
    FieldsAfterReturn(config, s, ticket, outcome);
  }

  lemma StampsAfterBegin(config: Config, s: System)
    ensures var s' := Step(config, s, Begin);
            && s'.b.lastStateChange == (if s'.b.state == s.b.state then s.b.lastStateChange else s.now)
            && s'.b.openedAt == s.b.openedAt
  {
  }

  /**
   The state after one event, from every state: a closed breaker opens on a trip that reaches the
   threshold; an open one becomes half-open with a request that comes after the timeout; a half-open one
   closes on a success and opens again on a trip; and only a reset does anything else.
   */
  lemma StateAfterEvent(config: Config, s: System, e: Event)
    ensures Step(config, s, e).b.state ==
            if e == Reset then Closed
            else
              match s.b.state
              case Closed =>
                if Returns(s, e, Trip) && s.b.consecutiveFail + 1 >= config.failureThreshold then Open else Closed
              case Open => if e == Begin && s.now >= s.b.openedAt + config.openTimeout then HalfOpen else Open
              case HalfOpen =>
                if Returns(s, e, Trip) then Open else if Returns(s, e, Success) then Closed else HalfOpen
  {
    if e.Begin? {
      StateAfterBegin(config, s);
    } else if e.End? && e.ticket in s.inFlight {
      StateAfterReturn(config, s, e.ticket, e.outcome);
    }
  }

  /** Without a reset a breaker comes to be closed if and only if a request returns with success in half-open. */
  lemma ClosesIff(config: Config, s: System, e: Event)
    requires s.b.state != Closed && e != Reset
    ensures Step(config, s, e).b.state == Closed <==> s.b.state == HalfOpen && Returns(s, e, Success)
  {
    StateAfterEvent(config, s, e);
  }

  /** The clock of a change of state, and of an opening. */
  lemma ChangesAreStamped(config: Config, s: System, e: Event)
    ensures var s' := Step(config, s, e);
            && (s'.b.state != s.b.state || e == Reset ==> s'.b.lastStateChange == s.now)
            && (s'.b.state == s.b.state && e != Reset ==> s'.b.lastStateChange == s.b.lastStateChange)
            && s'.b.openedAt == if s'.b.state == Open && s.b.state != Open then s.now else s.b.openedAt
  {
    if e.Begin? {
      StampsAfterBegin(config, s);
    } else if e.End? && e.ticket in s.inFlight {
      StampsAfterReturn(config, s, e.ticket, e.outcome);
    }
  }

  /**
   A trip in half-open opens the breaker again, from now on: whatever follows without a reset, no request
   is admitted for the open timeout.
   */
  lemma ProbeThatTripsReopens(config: Config, s: System, e: Event, later: seq<Event>)
    requires s.b.state == HalfOpen && Returns(s, e, Trip) && NoReset(later)
    ensures var reopened := Step(config, s, e);
            && reopened.b.state == Open && reopened.b.openedAt == s.now && reopened.b.halfOpenProbes == 0
            && (After(config, reopened, later).now < s.now + config.openTimeout ==>
                  !IsAdmitted(config, After(config, reopened, later)) && After(config, reopened, later).b.state == Open)
  {
    StateAfterEvent(config, s, e);
    assert Opens(config, s, e);
    NothingIsAdmittedWhileOpen(config, s, e, later);
    if After(config, Step(config, s, e), later).now < s.now + config.openTimeout {
      OpeningStep(config, s, e);
      StaysOpen(config, Step(config, s, e), s.now, later);
    }
  }

  /**
   A success in half-open closes the breaker with no failure counted: the next request is admitted, and so
   is every other until as many requests have tripped as the threshold says.
   */
  lemma ProbeThatSucceedsCloses(config: Config, s: System, e: Event, later: seq<Event>)
    requires Positive(config) && s.b.state == HalfOpen && Returns(s, e, Success)
    requires Trips(later) < config.failureThreshold
    ensures var closed := Step(config, s, e);
            && closed.b.state == Closed && closed.b.consecutiveFail == 0 && closed.b.halfOpenProbes == 0
            && IsAdmitted(config, closed)
            && After(config, closed, later).b.state == Closed && IsAdmitted(config, After(config, closed, later))
  {
    var closed := Step(config, s, e);
    StateAfterEvent(config, s, e);
    FewTripsKeepClosed(config, closed, later);
    AdmittedIff(config, closed);
    AdmittedIff(config, After(config, closed, later));
  }

  /** How many of the events are returns that trip. */
  function Trips(events: seq<Event>): nat
  {
    if events == [] then 0
    else
      var last := events[|events| - 1];
      Trips(events[..|events| - 1]) + if last.End? && last.outcome == Trip then 1 else 0
  }

  lemma {:induction false} FewTripsKeepClosed(config: Config, s: System, events: seq<Event>)
    requires Positive(config) && s.b.state == Closed && s.b.consecutiveFail >= 0
    requires s.b.consecutiveFail + Trips(events) < config.failureThreshold
    ensures var s' := After(config, s, events);
            s'.b.state == Closed && 0 <= s'.b.consecutiveFail <= s.b.consecutiveFail + Trips(events)
  {
    if events != [] {
      var init, last := events[..|events| - 1], events[|events| - 1];
      FewTripsKeepClosed(config, s, init);
      StateAfterEvent(config, After(config, s, init), last);
      FailCountStep(config, After(config, s, init), last);
    }
  }

  lemma FailCountAfterReturn(config: Config, s: System, ticket: nat, outcome: Outcome)
    requires s.b.consecutiveFail >= 0
    ensures 0 <= Ended(config, s, ticket, outcome).b.consecutiveFail <=
            s.b.consecutiveFail + if outcome == Trip then 1 else 0
  {
    FieldsAfterReturn(config, s, ticket, outcome);
  }

  lemma FailCountStep(config: Config, s: System, e: Event)
    requires s.b.consecutiveFail >= 0
    ensures 0 <= Step(config, s, e).b.consecutiveFail <=
            s.b.consecutiveFail + if e.End? && e.outcome == Trip then 1 else 0
  {
    if e.End? && e.ticket in s.inFlight {
      FailCountAfterReturn(config, s, e.ticket, e.outcome);
    }
  }

  // ----- Counters -----

  /** How many requests of a run have returned with this outcome. */
  function Returned(config: Config, s: System, events: seq<Event>, outcome: Outcome): nat
  {
    if events == [] then 0
    else
      var init := events[..|events| - 1];
      Returned(config, s, init, outcome)
      + if Returns(After(config, s, init), events[|events| - 1], outcome) then 1 else 0
  }

  lemma CountersAfterReturn(config: Config, s: System, ticket: nat, outcome: Outcome)
    ensures var b := Ended(config, s, ticket, outcome).b;
            && b.successes == s.b.successes + (if outcome == Success then 1 else 0)
            && b.failures == s.b.failures + (if outcome == Trip then 1 else 0)
            && b.lastFailure == if outcome == Trip then Some(s.now) else s.b.lastFailure
  {
    FieldsAfterReturn(config, s, ticket, outcome);
  }

  lemma CountersStep(config: Config, s: System, e: Event)
    ensures var b := Step(config, s, e).b;
            && b.successes == s.b.successes + (if Returns(s, e, Success) then 1 else 0)
            && b.failures == s.b.failures + (if Returns(s, e, Trip) then 1 else 0)
            && b.lastFailure == if Returns(s, e, Trip) then Some(s.now) else s.b.lastFailure
  {
    if e.End? && e.ticket in s.inFlight {
      CountersAfterReturn(config, s, e.ticket, e.outcome);
    }
  }

  /** In every run the two totals count the requests that have returned, resets and refusals notwithstanding. */
  lemma {:induction false} TotalsCountReturns(config: Config, now: int, events: seq<Event>)
    ensures var b := After(config, Start(now), events).b;
            && b.successes == Returned(config, Start(now), events, Success)
            && b.failures == Returned(config, Start(now), events, Trip)
            && (b.lastFailure == None <==> Returned(config, Start(now), events, Trip) == 0)
  {
    if events != [] {
      var init, last := events[..|events| - 1], events[|events| - 1];
      TotalsCountReturns(config, now, init);
      CountersStep(config, After(config, Start(now), init), last);
    }
  }
}
