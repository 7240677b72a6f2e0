/** The circuit breaker: a three-state machine around requests that may begin in one state and end in another. */
module CircuitBreaker {
  import opened Prelude

  datatype State = Closed | Open | HalfOpen

  datatype Config = Config(failureThreshold: int, openTimeout: int, halfOpenMaxProbes: int)

  const SECOND: int := 1_000_000_000

  /** Settings that are not positive get their defaults. */
  function Normalized(config: Config): Config
  {
    Config(if config.failureThreshold <= 0 then 5 else config.failureThreshold,
           if config.openTimeout <= 0 then 30 * SECOND else config.openTimeout,
           if config.halfOpenMaxProbes <= 0 then 1 else config.halfOpenMaxProbes)
  }

  /**
   How a request ended: without error, with one that ShouldTrip counts, or uncounted, which is an error that
   ShouldTrip does not count or a panic of the guarded function, after which nothing is recorded at all.
   */
  datatype Outcome = Success | Trip | Uncounted

  datatype Fields = Fields(
    state: State, failures: int, successes: int, consecutiveFail: int, halfOpenProbes: int,
    lastStateChange: int, lastFailure: Option<int>, openedAt: int)

  function Initial(now: int): Fields { Fields(Closed, 0, 0, 0, 0, now, None, 0) }

  function Moved(b: Fields, to: State, now: int): Fields { b.(state := to, lastStateChange := now) }

  predicate Admits(config: Config, b: Fields, now: int)
  {
    match b.state
    case Closed => true
    case Open => now - b.openedAt >= config.openTimeout
    case HalfOpen => b.halfOpenProbes < config.halfOpenMaxProbes
  }

  function AfterBegin(config: Config, b: Fields, now: int): Fields
  {
    if !Admits(config, b, now) || b.state == Closed then b
    else if b.state == Open then Moved(b, HalfOpen, now).(halfOpenProbes := 1)
    else b.(halfOpenProbes := b.halfOpenProbes + 1)
  }

  function AfterEnd(config: Config, b: Fields, now: int, outcome: Outcome): Fields
  {
    match outcome
    case Uncounted => b
    case Success =>
      var counted := b.(successes := b.successes + 1);
      (match b.state
       case Closed => counted.(consecutiveFail := 0)
       case Open => counted
       case HalfOpen => Moved(counted, Closed, now).(consecutiveFail := 0, halfOpenProbes := 0))
    case Trip =>
      var counted := b.(failures := b.failures + 1, consecutiveFail := b.consecutiveFail + 1, lastFailure := Some(now));
      (match b.state
       case Closed =>
         if counted.consecutiveFail >= config.failureThreshold then Moved(counted, Open, now).(openedAt := now)
         else counted
       case Open => counted
       case HalfOpen => Moved(counted, Open, now).(openedAt := now, halfOpenProbes := 0))
  }

  function AfterReset(b: Fields, now: int): Fields
  {
    Moved(b, Closed, now).(consecutiveFail := 0, halfOpenProbes := 0)
  }

  class Breaker {
    const config: Config
    var state: State
    var failures: int
    var successes: int
    var consecutiveFail: int
    var halfOpenProbes: int
    var lastStateChange: int
    var lastFailure: Option<int>
    var openedAt: int

    ghost function Abstract(): Fields
      reads this
    {
      Fields(state, failures, successes, consecutiveFail, halfOpenProbes, lastStateChange, lastFailure, openedAt)
    }

    constructor (config: Config, now: int)
      ensures this.config == Normalized(config) && Abstract() == Initial(now)
    {
      var failureThreshold := config.failureThreshold;
      if failureThreshold <= 0 {
        failureThreshold := 5;
      }
      var openTimeout := config.openTimeout;
      if openTimeout <= 0 {
        openTimeout := 30 * SECOND;
      }
      var halfOpenMaxProbes := config.halfOpenMaxProbes;
      if halfOpenMaxProbes <= 0 {
        halfOpenMaxProbes := 1;
      }
      this.config := Config(failureThreshold, openTimeout, halfOpenMaxProbes);
      state := Closed;
      failures, successes, consecutiveFail, halfOpenProbes := 0, 0, 0, 0;
      lastStateChange, lastFailure, openedAt := now, None, 0;
    }

    method SetState(to: State, now: int)
      modifies this`state, this`lastStateChange
      ensures state == to && lastStateChange == now
    {
      state := to;
      lastStateChange := now;
    }

    /** False is the circuit-open error. */
    method BeforeRequest(now: int) returns (admitted: bool)
      modifies this
      ensures admitted == Admits(config, old(Abstract()), now)
      ensures Abstract() == AfterBegin(config, old(Abstract()), now)
    {
      match state {
        case Closed =>
          return true;
        case Open =>
          if now - openedAt >= config.openTimeout {
            SetState(HalfOpen, now);
            halfOpenProbes := 1;
            return true;
          }
          return false;
        case HalfOpen =>
          if halfOpenProbes < config.halfOpenMaxProbes {
            halfOpenProbes := halfOpenProbes + 1;
            return true;
          }
          return false;
      }
    }

    /** Returns the transition that the state-change callback is told of. */
    method AfterRequest(now: int, outcome: Outcome) returns (transition: Option<(State, State)>)
      modifies this
      ensures Abstract() == AfterEnd(config, old(Abstract()), now, outcome)
      ensures transition == if state == old(state) then None else Some((old(state), state))
    {
      transition := None;
      if outcome == Trip {
        failures := failures + 1;
        consecutiveFail := consecutiveFail + 1;
        lastFailure := Some(now);
        match state {
          case Closed =>
            if consecutiveFail >= config.failureThreshold {
              transition := Some((Closed, Open));
              SetState(Open, now);
              openedAt := now;
            }
          case HalfOpen =>
            transition := Some((HalfOpen, Open));
            SetState(Open, now);
            openedAt := now;
            halfOpenProbes := 0;
          case Open =>
        }
      } else if outcome == Success {
        successes := successes + 1;
        match state {
          case Closed =>
            consecutiveFail := 0;
          case HalfOpen =>
            transition := Some((HalfOpen, Closed));
            SetState(Closed, now);
            consecutiveFail := 0;
            halfOpenProbes := 0;
          case Open =>
        }
      }
    }

    method Reset(now: int) returns (transition: Option<(State, State)>)
      modifies this
      ensures Abstract() == AfterReset(old(Abstract()), now)
      ensures transition == if old(state) == Closed then None else Some((old(state), Closed))
    {
      var before := state;
      state := Closed;
      consecutiveFail := 0;
      halfOpenProbes := 0;
      lastStateChange := now;
      transition := if before != Closed then Some((before, Closed)) else None;
    }

    /** What GetState reports agrees with what the next request meets. */
    method GetState(now: int) returns (effective: State)
      ensures effective == Open <==> state == Open && !Admits(config, Abstract(), now)
      ensures effective == HalfOpen <==> AfterBegin(config, Abstract(), now).state == HalfOpen
      ensures effective == Closed <==> state == Closed
    {
      if state == Open && now - openedAt >= config.openTimeout {
        return HalfOpen;
      }
      return state;
    }
  }
}
