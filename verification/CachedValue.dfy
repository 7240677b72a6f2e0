/**
 A cached value that is collected again when it is older than its ttl, by one caller at a time; the
 others wait on a channel for that caller and share what it stored. The class holds the locked
 regions of a call; the collection itself runs outside the lock, may take any time and may panic.
 */
module CachedValue {
  import opened Prelude

  /** `made` counts the channels made, which are numbered from 1; waitCh is 0 while it is nil. */
  datatype Cache<T> = Cache(
    cached: T, cachedAt: Option<int>, inflight: bool, waitCh: nat, made: nat, closings: seq<nat>)

  /** What the first locked region of a call decides. */
  datatype Entry<T> = Hit(value: T) | Join(ch: nat) | Collect(ch: nat)

  predicate IsFresh<T>(c: Cache<T>, ttl: int, now: int) { c.cachedAt.Some? && now - c.cachedAt.value < ttl }

  function Decision<T>(c: Cache<T>, ttl: int, now: int): Entry<T>
  {
    if IsFresh(c, ttl, now) then Hit(c.cached)
    else if c.inflight then Join(c.waitCh)
    else Collect(c.made + 1)
  }

  function Entered<T>(c: Cache<T>, entry: Entry<T>): Cache<T>
  {
    if entry.Collect? then c.(inflight := true, waitCh := entry.ch, made := c.made + 1) else c
  }

  function Refreshed<T>(c: Cache<T>, data: T, now: int): Cache<T> { c.(cached := data, cachedAt := Some(now)) }

  function Finished<T>(c: Cache<T>, ch: nat): Cache<T> { c.(inflight := false, closings := c.closings + [ch]) }

  class Value<T> {
    const ttl: int
    var cached: T
    var cachedAt: Option<int>
    var inflight: bool
    var waitCh: nat
    var made: nat
    var closings: seq<nat>

    ghost function State(): Cache<T>
      reads this
    {
      Cache(cached, cachedAt, inflight, waitCh, made, closings)
    }

    constructor (ttl: int, zero: T)
      ensures this.ttl == ttl && State() == Cache(zero, None, false, 0, 0, [])
    {
      this.ttl, cached, cachedAt, inflight, waitCh, made, closings := ttl, zero, None, false, 0, 0, [];
    }

    method Enter(now: int) returns (entry: Entry<T>)
      modifies this
      ensures entry == Decision(old(State()), ttl, now)
      ensures State() == Entered(old(State()), entry)
    {
      if cachedAt.Some? && now - cachedAt.value < ttl {
        return Hit(cached);
      }
      if inflight {
        return Join(waitCh);
      }
      inflight := true;
      made := made + 1;
      waitCh := made;
      entry := Collect(waitCh);
    }

    method Refresh(data: T, now: int)
      modifies `cached, `cachedAt
      ensures State() == Refreshed(old(State()), data, now)
    {
      cached := data;
      cachedAt := Some(now);
    }

    /** The deferred region, which also runs when the collection panicked. */
    method Finish(ch: nat)
      modifies `inflight, `closings
      ensures State() == Finished(old(State()), ch)
    {
      inflight := false;
      closings := closings + [ch];
    }
  }

  // ----- Callers -----

  datatype Caller<T> =
    | Idle
    | Waiting(ch: nat)
    | Collecting(ch: nat)
    | Collected(ch: nat, data: T)
    | Stored(ch: nat, data: T)
    | Panicked(ch: nat)
  {
    /** Between making a channel and closing it. */
    predicate Holds() { Collecting? || Collected? || Stored? || Panicked? }
  }

  datatype Path = Fast | Joined(ch: nat) | Own(ch: nat)

  /** A call's return: the value, how it was come by, the collection it is from (0 if none), when. */
  datatype Return<T> = Return(value: T, path: Path, origin: nat, at: int)

  /**
   The cache, the clock and the callers, with the history: when collection c started, what it
   returned, when that was stored, which collections panicked, whose result is cached, and every
   value handed out. A collection has the number of its channel.
   */
  datatype System<T> = System(
    cache: Cache<T>, now: int, callers: seq<Caller<T>>,
    started: map<nat, int>, results: map<nat, T>, stores: map<nat, int>, panics: set<nat>, origin: nat,
    answers: seq<Return<T>>)

  datatype Event<T> =
    | Tick(time: int)
    | Get(i: nat)
    | CollectReturns(i: nat, data: T)
    | CollectPanics(i: nat)
    | Store(i: nat)
    | Finish(i: nat)
    | Wake(i: nat)

  predicate Enabled<T>(s: System<T>, e: Event<T>)
  {
    if e.Tick? then e.time >= s.now
    else
      && e.i < |s.callers|
      && match e
         case Get(i) => s.callers[i].Idle?
         case CollectReturns(i, _) => s.callers[i].Collecting?
         case CollectPanics(i) => s.callers[i].Collecting?
         case Store(i) => s.callers[i].Collected?
         case Finish(i) => s.callers[i].Stored? || s.callers[i].Panicked?
         case Wake(i) => s.callers[i].Waiting? && s.callers[i].ch in s.cache.closings
  }

  function Got<T>(s: System<T>, ttl: int, i: nat): System<T>
    requires i < |s.callers|
  {
    var entry := Decision(s.cache, ttl, s.now);
    var s' := s.(cache := Entered(s.cache, entry));
    match entry
    case Hit(value) => s'.(answers := s.answers + [Return(value, Fast, s.origin, s.now)])
    case Join(ch) => s'.(callers := s.callers[i := Waiting(ch)])
    case Collect(ch) => s'.(callers := s.callers[i := Collecting(ch)], started := s.started[ch := s.now])
  }

  function Step<T>(s: System<T>, ttl: int, e: Event<T>): System<T>
    requires Enabled(s, e)
  {
    match e
    case Tick(time) => s.(now := time)
    case Get(i) => Got(s, ttl, i)
    case CollectReturns(i, data) =>
      var ch := s.callers[i].ch;
      s.(callers := s.callers[i := Collected(ch, data)], results := s.results[ch := data])
    case CollectPanics(i) =>
      var ch := s.callers[i].ch;
      s.(callers := s.callers[i := Panicked(ch)], panics := s.panics + {ch})
    case Store(i) =>
      var (ch, data) := (s.callers[i].ch, s.callers[i].data);
      s.(cache := Refreshed(s.cache, data, s.now), callers := s.callers[i := Stored(ch, data)],
         stores := s.stores[ch := s.now], origin := ch)
    case Finish(i) =>
      var ch := s.callers[i].ch;
      var s' := s.(cache := Finished(s.cache, ch), callers := s.callers[i := Idle]);
      if s.callers[i].Stored? then s'.(answers := s.answers + [Return(s.callers[i].data, Own(ch), ch, s.now)])
      else s'
    case Wake(i) =>
      var ch := s.callers[i].ch;
      s.(callers := s.callers[i := Idle],
         answers := s.answers + [Return(s.cache.cached, Joined(ch), s.origin, s.now)])
  }

  function Start<T>(zero: T, n: nat, now: int): System<T>
  {
    System(Cache(zero, None, false, 0, 0, []), now, seq(n, _ => Idle), map[], map[], map[], {}, 0, [])
  }

  /** An event that cannot happen is skipped, so every event sequence is a run. */
  function Next<T>(s: System<T>, ttl: int, e: Event<T>): System<T>
  {
    if Enabled(s, e) then Step(s, ttl, e) else s
  }

  function After<T>(s: System<T>, ttl: int, events: seq<Event<T>>): System<T>
  {
    if events == [] then s else Next(After(s, ttl, events[..|events| - 1]), ttl, events[|events| - 1])
  }

  // ----- Invariants -----

  /** Caller h holds channel ch, and no other caller holds any. */
  ghost predicate OnlyHolder<T>(callers: seq<Caller<T>>, h: nat, ch: nat)
  {
    && h < |callers| && callers[h].Holds() && callers[h].ch == ch
    && forall j | 0 <= j < |callers| && j != h :: !callers[j].Holds()
  }

  ghost predicate NoHolder<T>(callers: seq<Caller<T>>) { forall j | 0 <= j < |callers| :: !callers[j].Holds() }

  /** One holder while in flight, of the newest channel; the channels before it are closed once each, in order. */
  ghost predicate OneCollector<T>(s: System<T>)
  {
    && (if s.cache.inflight
        then s.cache.waitCh == s.cache.made > 0 && exists h :: OnlyHolder(s.callers, h, s.cache.made)
        else NoHolder(s.callers))
    && |s.cache.closings| + (if s.cache.inflight then 1 else 0) == s.cache.made
    && (forall k | 0 <= k < |s.cache.closings| :: s.cache.closings[k] == k + 1)
    && (forall i | 0 <= i < |s.callers| && s.callers[i].Waiting? :: 1 <= s.callers[i].ch <= s.cache.made)
  }

  /** The history agrees with where each caller is. */
  ghost predicate CallerIsRecorded<T>(s: System<T>, caller: Caller<T>)
  {
    match caller
    case Idle => true
    case Waiting(_) => true
    case Collecting(ch) => ch in s.started && ch !in s.results && ch !in s.panics
    case Collected(ch, data) => ch in s.started && ch in s.results && s.results[ch] == data
      && ch !in s.stores && ch !in s.panics
    case Stored(ch, data) => ch in s.results && s.results[ch] == data && ch in s.stores
    case Panicked(ch) => ch in s.panics
  }

  ghost predicate Recorded<T>(s: System<T>, zero: T)
  {
    && (forall i | 0 <= i < |s.callers| :: CallerIsRecorded(s, s.callers[i]))
    && (forall c | c in s.started :: 1 <= c <= s.cache.made && s.started[c] <= s.now)
    && s.results.Keys <= s.started.Keys
    && s.stores.Keys <= s.results.Keys
    && s.panics <= s.started.Keys && s.panics !! s.stores.Keys
    && (forall c | 1 <= c <= |s.cache.closings| :: c in s.stores || c in s.panics)
    && (forall c | c in s.stores :: c <= s.origin && s.stores[c] <= s.now)
    && (forall c, d | c in s.stores && d in s.stores && c <= d :: s.stores[c] <= s.stores[d])
    && (if s.origin == 0
        then s.cache.cached == zero && s.cache.cachedAt == None
        else
          && s.origin in s.stores && s.cache.cached == s.results[s.origin]
          && s.cache.cachedAt == Some(s.stores[s.origin]))
  }

  /** No collection starts while a stored result is younger than the ttl. */
  ghost predicate Paced<T>(s: System<T>, ttl: int)
  {
    forall c, d | c in s.stores && d in s.started && c < d :: s.started[d] >= s.stores[c] + ttl
  }

  /** A value handed out is what its collection returned; a fast one is younger than the ttl. */
  ghost predicate IsHonest<T>(s: System<T>, ttl: int, zero: T, r: Return<T>)
  {
    && (if r.origin == 0 then r.value == zero
        else r.origin in s.stores && r.origin in s.results && r.value == s.results[r.origin])
    && match r.path
       case Fast => r.origin != 0 && r.at - s.stores[r.origin] < ttl
       case Own(ch) => r.origin == ch != 0
       case Joined(ch) => ch != 0 && (r.origin >= ch || ch in s.panics)
  }

  ghost predicate Honest<T>(s: System<T>, ttl: int, zero: T)
  {
    forall k | 0 <= k < |s.answers| :: IsHonest(s, ttl, zero, s.answers[k])
  }

  ghost predicate Sound<T>(s: System<T>, ttl: int, zero: T)
  {
    OneCollector(s) && Recorded(s, zero) && Paced(s, ttl) && Honest(s, ttl, zero)
  }
}
