/** What every interleaving of callers of a cached value keeps. */
module CachedValueTheorems {
  import opened Prelude
  import opened CachedValue

  // ----- One collector -----

  lemma OneCollectorGet<T>(s: System<T>, ttl: int, i: nat)
    requires OneCollector(s) && Enabled(s, Get(i))
    ensures OneCollector(Step(s, ttl, Get(i)))
  {
    if Decision(s.cache, ttl, s.now).Collect? {
      CollectorStarts(s, ttl, i);
    } else if s.cache.inflight {
      var h: nat :| OnlyHolder(s.callers, h, s.cache.made);
      assert OnlyHolder(Step(s, ttl, Get(i)).callers, h, s.cache.made);
    }
  }

  lemma CollectorStarts<T>(s: System<T>, ttl: int, i: nat)
    requires OneCollector(s) && Enabled(s, Get(i)) && Decision(s.cache, ttl, s.now).Collect?
    ensures OneCollector(Step(s, ttl, Get(i)))
  {
    assert OnlyHolder(Step(s, ttl, Get(i)).callers, i, s.cache.made + 1);
  }

  lemma OneCollectorStep<T>(s: System<T>, ttl: int, e: Event<T>)
    requires OneCollector(s) && Enabled(s, e)
    ensures OneCollector(Step(s, ttl, e))
  {
    var s' := Step(s, ttl, e);
    if e.Get? {
      OneCollectorGet(s, ttl, e.i);
    } else if s.cache.inflight {
      var h: nat :| OnlyHolder(s.callers, h, s.cache.made);
      if e.Finish? {
        assert h == e.i;
        assert NoHolder(s'.callers);
      } else {
        assert OnlyHolder(s'.callers, h, s'.cache.made);
      }
    }
  }

  // ----- The history -----

  lemma RecordedGet<T>(s: System<T>, ttl: int, zero: T, i: nat)
    requires OneCollector(s) && Recorded(s, zero) && Enabled(s, Get(i))
    ensures Recorded(Step(s, ttl, Get(i)), zero)
  {
    var s' := Step(s, ttl, Get(i));
    if Decision(s.cache, ttl, s.now).Collect? {
      CollectIsRecorded(s, ttl, zero, i);
    } else {
      forall j | 0 <= j < |s'.callers|
        ensures CallerIsRecorded(s', s'.callers[j])
      {
        assert j != i ==> CallerIsRecorded(s, s.callers[j]);
      }
    }
  }

  lemma CollectIsRecorded<T>(s: System<T>, ttl: int, zero: T, i: nat)
    requires OneCollector(s) && Recorded(s, zero) && Enabled(s, Get(i)) && Decision(s.cache, ttl, s.now).Collect?
    ensures Recorded(Step(s, ttl, Get(i)), zero)
  {
    var s', ch := Step(s, ttl, Get(i)), s.cache.made + 1;
    assert s'.started == s.started[ch := s.now] && ch !in s.started;
    forall j | 0 <= j < |s'.callers|
      ensures CallerIsRecorded(s', s'.callers[j])
    {
      if j != i {
        assert CallerIsRecorded(s, s.callers[j]) && !s.callers[j].Holds();
      }
    }
  }

  lemma RecordedReturns<T>(s: System<T>, ttl: int, zero: T, i: nat, data: T)
    requires OneCollector(s) && Recorded(s, zero) && Enabled(s, CollectReturns(i, data))
    ensures Recorded(Step(s, ttl, CollectReturns(i, data)), zero)
  {
    var s' := Step(s, ttl, CollectReturns(i, data));
    assert CallerIsRecorded(s, s.callers[i]);
    var h: nat :| OnlyHolder(s.callers, h, s.cache.made);
    assert h == i;
    forall j | 0 <= j < |s'.callers|
      ensures CallerIsRecorded(s', s'.callers[j])
    {
      assert j != i ==> CallerIsRecorded(s, s.callers[j]);
    }
  }

  lemma RecordedPanics<T>(s: System<T>, ttl: int, zero: T, i: nat)
    requires OneCollector(s) && Recorded(s, zero) && Enabled(s, CollectPanics(i))
    ensures Recorded(Step(s, ttl, CollectPanics(i)), zero)
  {
    var s' := Step(s, ttl, CollectPanics(i));
    assert CallerIsRecorded(s, s.callers[i]);
    var h: nat :| OnlyHolder(s.callers, h, s.cache.made);
    assert h == i;
    forall j | 0 <= j < |s'.callers|
      ensures CallerIsRecorded(s', s'.callers[j])
    {
      assert j != i ==> CallerIsRecorded(s, s.callers[j]);
    }
  }

  lemma RecordedStore<T>(s: System<T>, ttl: int, zero: T, i: nat)
    requires OneCollector(s) && Recorded(s, zero) && Enabled(s, Store(i))
    ensures Recorded(Step(s, ttl, Store(i)), zero)
  {
    var s' := Step(s, ttl, Store(i));
    assert CallerIsRecorded(s, s.callers[i]);
    var h: nat :| OnlyHolder(s.callers, h, s.cache.made);
    assert h == i;
    forall j | 0 <= j < |s'.callers|
      ensures CallerIsRecorded(s', s'.callers[j])
    {
      assert j != i ==> CallerIsRecorded(s, s.callers[j]);
    }
  }

  lemma RecordedFinish<T>(s: System<T>, ttl: int, zero: T, i: nat)
    requires OneCollector(s) && Recorded(s, zero) && Enabled(s, Finish(i))
    ensures Recorded(Step(s, ttl, Finish(i)), zero)
  {
    var s' := Step(s, ttl, Finish(i));
    assert CallerIsRecorded(s, s.callers[i]);
    var h: nat :| OnlyHolder(s.callers, h, s.cache.made);
    assert h == i;
    forall j | 0 <= j < |s'.callers|
      ensures CallerIsRecorded(s', s'.callers[j])
    {
      assert j != i ==> CallerIsRecorded(s, s.callers[j]);
    }
  }

  lemma RecordedStep<T>(s: System<T>, ttl: int, zero: T, e: Event<T>)
    requires OneCollector(s) && Recorded(s, zero) && Enabled(s, e)
    ensures Recorded(Step(s, ttl, e), zero)
  {
    match e
    case Tick(_) => assert forall i | 0 <= i < |s.callers| :: CallerIsRecorded(Step(s, ttl, e), s.callers[i]);
    case Get(i) => RecordedGet(s, ttl, zero, i);
    case CollectReturns(i, data) => RecordedReturns(s, ttl, zero, i, data);
    case CollectPanics(i) => RecordedPanics(s, ttl, zero, i);
    case Store(i) => RecordedStore(s, ttl, zero, i);
    case Finish(i) => RecordedFinish(s, ttl, zero, i);
    case Wake(i) => assert forall j | 0 <= j < |s.callers| :: CallerIsRecorded(Step(s, ttl, e), s.callers[j]);
  }

  // ----- Pacing and honesty -----

  lemma PacedStep<T>(s: System<T>, ttl: int, zero: T, e: Event<T>)
    requires OneCollector(s) && Recorded(s, zero) && Paced(s, ttl) && Enabled(s, e)
    ensures Paced(Step(s, ttl, e), ttl)
  {
  }

  /** History only grows: a step after a collection has its result and store time unchanged. */
  ghost predicate Extends<T>(s: System<T>, s': System<T>)
  {
    && (forall c | c in s.stores && c in s.results ::
          c in s'.stores && c in s'.results && s'.stores[c] == s.stores[c] && s'.results[c] == s.results[c])
    && s.panics <= s'.panics
  }

  lemma StepExtends<T>(s: System<T>, ttl: int, zero: T, e: Event<T>)
    requires OneCollector(s) && Recorded(s, zero) && Enabled(s, e)
    ensures Extends(s, Step(s, ttl, e))
  {
    if !e.Tick? {
      assert CallerIsRecorded(s, s.callers[e.i]);
    }
  }

  lemma NewAnswerIsHonest<T>(s: System<T>, ttl: int, zero: T, e: Event<T>)
    requires OneCollector(s) && Recorded(s, zero) && Enabled(s, e)
    ensures var s' := Step(s, ttl, e);
            s'.answers == s.answers
            || (|s'.answers| == |s.answers| + 1 && s'.answers[..|s.answers|] == s.answers
                && IsHonest(s', ttl, zero, s'.answers[|s.answers|]))
  {
    if e.Finish? || e.Wake? {
      assert CallerIsRecorded(s, s.callers[e.i]);
    }
  }

  lemma HonestStep<T>(s: System<T>, ttl: int, zero: T, e: Event<T>)
    requires Sound(s, ttl, zero) && Enabled(s, e)
    ensures Honest(Step(s, ttl, e), ttl, zero)
  {
    var s' := Step(s, ttl, e);
    StepExtends(s, ttl, zero, e);
    NewAnswerIsHonest(s, ttl, zero, e);
    forall k | 0 <= k < |s'.answers|
      ensures IsHonest(s', ttl, zero, s'.answers[k])
    {
      if k < |s.answers| {
        assert IsHonest(s, ttl, zero, s.answers[k]);
        HonestyIsKept(s, s', ttl, zero, s.answers[k]);
      }
    }
  }

  lemma HonestyIsKept<T>(s: System<T>, s': System<T>, ttl: int, zero: T, r: Return<T>)
    requires IsHonest(s, ttl, zero, r) && Extends(s, s')
    ensures IsHonest(s', ttl, zero, r)
  {
  }

  lemma NextIsSound<T>(s: System<T>, ttl: int, zero: T, e: Event<T>)
    requires Sound(s, ttl, zero)
    ensures Sound(Next(s, ttl, e), ttl, zero)
  {
    if Enabled(s, e) {
      OneCollectorStep(s, ttl, e);
      RecordedStep(s, ttl, zero, e);
      PacedStep(s, ttl, zero, e);
      HonestStep(s, ttl, zero, e);
    }
  }

  lemma {:induction false} SoundThroughout<T>(s: System<T>, ttl: int, zero: T, events: seq<Event<T>>)
    requires Sound(s, ttl, zero)
    ensures Sound(After(s, ttl, events), ttl, zero)
  {
    if events != [] {
      SoundThroughout(s, ttl, zero, events[..|events| - 1]);
      NextIsSound(After(s, ttl, events[..|events| - 1]), ttl, zero, events[|events| - 1]);
    }
  }

  lemma EveryRunIsSound<T>(zero: T, n: nat, now: int, ttl: int, events: seq<Event<T>>)
    ensures Sound(After(Start(zero, n, now), ttl, events), ttl, zero)
  {
    SoundThroughout(Start(zero, n, now), ttl, zero, events);
  }

  // ----- Main results -----

  /** In every run at most one caller holds a channel, so at most one collection runs at a time. */
  lemma OneCollectionAtATime<T>(zero: T, n: nat, now: int, ttl: int, events: seq<Event<T>>, i: nat, j: nat)
    ensures var s := After(Start(zero, n, now), ttl, events);
            i < |s.callers| && j < |s.callers| && s.callers[i].Holds() && s.callers[j].Holds() ==> i == j
  {
    EveryRunIsSound(zero, n, now, ttl, events);
    var s := After(Start(zero, n, now), ttl, events);
    if s.cache.inflight {
      var h: nat :| OnlyHolder(s.callers, h, s.cache.made);
    }
  }

  /** How often a channel has been closed. */
  function Closings(closings: seq<nat>, ch: nat): nat
  {
    if closings == [] then 0
    else Closings(closings[..|closings| - 1], ch) + if closings[|closings| - 1] == ch then 1 else 0
  }

  lemma {:induction false} ClosingsOfAscending(closings: seq<nat>, ch: nat)
    requires forall k | 0 <= k < |closings| :: closings[k] == k + 1
    ensures Closings(closings, ch) == if 1 <= ch <= |closings| then 1 else 0
  {
    if closings != [] {
      ClosingsOfAscending(closings[..|closings| - 1], ch);
    }
  }

  /** Every channel made is closed exactly once, but for one a caller still holds, which is not closed yet. */
  lemma EachChannelIsClosedOnce<T>(zero: T, n: nat, now: int, ttl: int, events: seq<Event<T>>, ch: nat)
    requires 1 <= ch <= After(Start(zero, n, now), ttl, events).cache.made
    ensures var s := After(Start(zero, n, now), ttl, events);
            var held := exists h: nat :: h < |s.callers| && s.callers[h].Holds() && s.callers[h].ch == ch;
            Closings(s.cache.closings, ch) == if held then 0 else 1
  {
    EveryRunIsSound(zero, n, now, ttl, events);
    var s := After(Start(zero, n, now), ttl, events);
    ClosingsOfAscending(s.cache.closings, ch);
    if s.cache.inflight {
      var h: nat :| OnlyHolder(s.callers, h, s.cache.made);
      assert s.callers[h].ch == s.cache.made;
    }
  }

  /**
   Every value handed out is what a collection returned and stored, unless no collection had: a fast
   one was stored less than ttl before; a caller that collected gets its own; one that waited gets the
   result of the collection it joined or of a later one, unless the one it joined panicked.
   */
  lemma AnswersAreHonest<T>(zero: T, n: nat, now: int, ttl: int, events: seq<Event<T>>, k: nat)
    requires k < |After(Start(zero, n, now), ttl, events).answers|
    ensures var s := After(Start(zero, n, now), ttl, events);
            IsHonest(s, ttl, zero, s.answers[k])
  {
    EveryRunIsSound(zero, n, now, ttl, events);
  }

  /** With no panic every value handed out is the result of a completed collection. */
  lemma WithoutPanicsAnswersAreResults<T>(zero: T, n: nat, now: int, ttl: int, events: seq<Event<T>>, k: nat)
    requires forall e | e in events :: !e.CollectPanics?
    requires k < |After(Start(zero, n, now), ttl, events).answers|
    ensures var s := After(Start(zero, n, now), ttl, events);
            var r := s.answers[k];
            && r.origin in s.stores && r.origin in s.results && r.value == s.results[r.origin]
            && (r.path.Joined? ==> r.origin >= r.path.ch)
  {
    EveryRunIsSound(zero, n, now, ttl, events);
    NoPanicsRecorded(zero, n, now, ttl, events);
  }

  lemma {:induction false} NoPanicsRecorded<T>(zero: T, n: nat, now: int, ttl: int, events: seq<Event<T>>)
    requires forall e | e in events :: !e.CollectPanics?
    ensures After(Start(zero, n, now), ttl, events).panics == {}
  {
    if events != [] {
      NoPanicsRecorded(zero, n, now, ttl, events[..|events| - 1]);
      assert events[|events| - 1] in events;
    }
  }

  // ----- When the collection panics -----

  lemma AfterLast<T>(s: System<T>, ttl: int, events: seq<Event<T>>, e: Event<T>)
    ensures After(s, ttl, events + [e]) == Next(After(s, ttl, events), ttl, e)
  {
    assert (events + [e])[..|events|] == events;
  }

  lemma TwoCallers<T>(zero: T, now: int, ttl: int)
    ensures var s := After(Start(zero, 2, now), ttl, [Get(0), Get(1)]);
            && s.callers == [Collecting(1), Waiting(1)] && s.answers == [] && s.origin == 0 && s.now == now
            && s.cache == Cache(zero, None, true, 1, 1, [])
  {
    var s := Start(zero, 2, now);
    AfterLast(s, ttl, [], Get(0));
    AfterLast(s, ttl, [Get(0)], Get(1));
    var first: seq<Event<T>> := [Get(0)];
    assert [] + first == first && first + [Get(1)] == [Get(0), Get(1)];
  }

  /** A first collection that panics leaves its waiter with the zero value, which no collection returned. */
  lemma PanicAnswersNothing<T>(zero: T, now: int, ttl: int)
    ensures After(Start(zero, 2, now), ttl, [Get(0), Get(1), CollectPanics(0), Finish(0), Wake(1)]).answers ==
            [Return(zero, Joined(1), 0, now)]
  {
    var s := Start(zero, 2, now);
    var start: seq<Event<T>> := [Get(0), Get(1)];
    TwoCallers(zero, now, ttl);
    AfterLast(s, ttl, start, CollectPanics(0));
    AfterLast(s, ttl, start + [CollectPanics(0)], Finish(0));
    AfterLast(s, ttl, start + [CollectPanics(0), Finish(0)], Wake(1));
    assert start + [CollectPanics(0)] + [Finish(0)] == start + [CollectPanics(0), Finish(0)];
    assert start + [CollectPanics(0), Finish(0)] + [Wake(1)] == [Get(0), Get(1), CollectPanics(0), Finish(0), Wake(1)];
  }

  /** From now on every caller that has waited on ch is answered from collection ch or a later one. */
  ghost predicate ServesWaiters<T>(s: System<T>, ttl: int, ch: nat, more: seq<Event<T>>)
  {
    Serves(s.answers, After(s, ttl, more).answers, ch)
  }

  lemma OriginStep<T>(s: System<T>, ttl: int, zero: T, e: Event<T>)
    requires Sound(s, ttl, zero)
    ensures var s' := Next(s, ttl, e);
            && s'.origin >= s.origin
            && (s'.answers == s.answers
                || (|s'.answers| == |s.answers| + 1 && s'.answers[..|s.answers|] == s.answers
                    && s'.answers[|s.answers|].origin >= s.origin))
  {
    if Enabled(s, e) && (e.Store? || e.Finish?) {
      assert CallerIsRecorded(s, s.callers[e.i]);
      var h: nat :| OnlyHolder(s.callers, h, s.cache.made);
    }
  }

  lemma {:induction false} LaterOriginsServe<T>(s: System<T>, ttl: int, zero: T, ch: nat, more: seq<Event<T>>)
    requires Sound(s, ttl, zero) && s.origin >= ch
    ensures ServesWaiters(s, ttl, ch, more)
    ensures After(s, ttl, more).origin >= ch && |After(s, ttl, more).answers| >= |s.answers|
  {
    if more != [] {
      var init := more[..|more| - 1];
      var before := After(s, ttl, init);
      LaterOriginsServe(s, ttl, zero, ch, init);
      SoundThroughout(s, ttl, zero, init);
      OriginStep(before, ttl, zero, more[|more| - 1]);
      OneMoreAnswer(s.answers, before.answers, Next(before, ttl, more[|more| - 1]).answers, ch);
    }
  }

  ghost predicate Serves<T>(first: seq<Return<T>>, answers: seq<Return<T>>, ch: nat)
  {
    forall k | |first| <= k < |answers| && answers[k].path == Joined(ch) :: answers[k].origin >= ch
  }

  lemma OneMoreAnswer<T>(first: seq<Return<T>>, before: seq<Return<T>>, after: seq<Return<T>>, ch: nat)
    requires Serves(first, before, ch) && |before| >= |first|
    requires after == before
             || (|after| == |before| + 1 && after[..|before|] == before && after[|before|].origin >= ch)
    ensures Serves(first, after, ch) && |after| >= |first|
  {
    forall k | |first| <= k < |after| && after[k].path == Joined(ch)
      ensures after[k].origin >= ch
    {
      assert k < |before| ==> after[k] == before[k];
    }
  }

  /**
   Exactly when waiting pays: at the moment a collection's channel is closed with a caller waiting on it,
   every caller that waits on it is answered from that collection or a later one, in every continuation,
   if and only if the collection did not panic.
   */
  lemma WaitersAreServedIff<T>(zero: T, n: nat, now: int, ttl: int, events: seq<Event<T>>, h: nat, i: nat)
    requires var s := After(Start(zero, n, now), ttl, events);
             Enabled(s, Finish(h)) && i < |s.callers| && s.callers[i] == Waiting(s.callers[h].ch)
    ensures var s := After(Start(zero, n, now), ttl, events);
            (forall more :: ServesWaiters(Step(s, ttl, Finish(h)), ttl, s.callers[h].ch, more)) <==>
              s.callers[h].Stored?
  {
    var s := After(Start(zero, n, now), ttl, events);
    EveryRunIsSound(zero, n, now, ttl, events);
    ServedIff(s, ttl, zero, h, i);
  }

  lemma ServedIff<T>(s: System<T>, ttl: int, zero: T, h: nat, i: nat)
    requires Sound(s, ttl, zero) && Enabled(s, Finish(h)) && i < |s.callers| && s.callers[i] == Waiting(s.callers[h].ch)
    ensures (forall more :: ServesWaiters(Step(s, ttl, Finish(h)), ttl, s.callers[h].ch, more)) <==>
            s.callers[h].Stored?
  {
    var ch, s' := s.callers[h].ch, Step(s, ttl, Finish(h));
    NextIsSound(s, ttl, zero, Finish(h));
    ClosingOrigin(s, ttl, zero, h);
    if s.callers[h].Stored? {
      forall more ensures ServesWaiters(s', ttl, ch, more) {
        LaterOriginsServe(s', ttl, zero, ch, more);
      }
    } else {
      WakingFindsOrigin(s', ttl, i, ch);
      assert !ServesWaiters(s', ttl, ch, [Wake(i)]);
    }
  }

  lemma ClosingOrigin<T>(s: System<T>, ttl: int, zero: T, h: nat)
    requires Sound(s, ttl, zero) && Enabled(s, Finish(h))
    ensures s.origin >= s.callers[h].ch <==> s.callers[h].Stored?
  {
    assert CallerIsRecorded(s, s.callers[h]);
    var holder: nat :| OnlyHolder(s.callers, holder, s.cache.made);
    assert holder == h;
  }

  lemma WakingFindsOrigin<T>(s: System<T>, ttl: int, i: nat, ch: nat)
    requires i < |s.callers| && s.callers[i] == Waiting(ch) && ch in s.cache.closings
    ensures var answers := After(s, ttl, [Wake(i)]).answers;
            |answers| == |s.answers| + 1 && answers[|s.answers|].path == Joined(ch)
              && answers[|s.answers|].origin == s.origin
  {
    AfterFirst(s, ttl, Wake(i), []);
  }

  /** A collection starts no sooner than ttl after any earlier result was stored. */
  lemma CollectionsArePaced<T>(zero: T, n: nat, now: int, ttl: int, events: seq<Event<T>>, c: nat, d: nat)
    ensures var s := After(Start(zero, n, now), ttl, events);
            c in s.stores && d in s.started && c < d ==> s.started[d] >= s.stores[c] + ttl
  {
    EveryRunIsSound(zero, n, now, ttl, events);
  }

  // ----- Nobody is stuck -----

  /** What is left for the holder of a channel to do; `data` is what its collection returns, if it still runs. */
  function LeftToDo<T>(caller: Caller<T>, h: nat, data: T): seq<Event<T>>
    requires caller.Holds()
  {
    match caller
    case Collecting(_) => [CollectReturns(h, data), Store(h), Finish(h)]
    case Collected(_, _) => [Store(h), Finish(h)]
    case _ => [Finish(h)]
  }

  /**
   A caller that waits is let go: its channel is closed, or one caller holds it, and that caller's own
   steps, at most three, close it whatever its collection returns.
   */
  lemma NoWaiterIsStuck<T>(zero: T, n: nat, now: int, ttl: int, events: seq<Event<T>>, i: nat, data: T)
    returns (h: nat)
    requires var s := After(Start(zero, n, now), ttl, events); i < |s.callers| && s.callers[i].Waiting?
    ensures var s := After(Start(zero, n, now), ttl, events);
            var ch := s.callers[i].ch;
            ch !in s.cache.closings ==>
              && h < |s.callers| && s.callers[h].Holds() && s.callers[h].ch == ch
              && var end := After(s, ttl, LeftToDo(s.callers[h], h, data));
              Enabled(end, Wake(i)) && end.callers[i] == s.callers[i]
  {
    EveryRunIsSound(zero, n, now, ttl, events);
    var s := After(Start(zero, n, now), ttl, events);
    var ch := s.callers[i].ch;
    h := 0;
    if ch !in s.cache.closings {
      ClosedUpTo(s.cache.closings, ch);
      h :| OnlyHolder(s.callers, h, s.cache.made);
      HolderFinishes(s, ttl, h, data);
      var end := After(s, ttl, LeftToDo(s.callers[h], h, data));
      assert end.cache.closings[|s.cache.closings|] == ch;
    }
  }

  lemma ClosedUpTo(closings: seq<nat>, ch: nat)
    requires forall k | 0 <= k < |closings| :: closings[k] == k + 1
    ensures ch in closings <==> 1 <= ch <= |closings|
  {
    if 1 <= ch <= |closings| {
      assert closings[ch - 1] == ch;
    }
  }

  lemma HolderFinishes<T>(s: System<T>, ttl: int, h: nat, data: T)
    requires h < |s.callers| && s.callers[h].Holds()
    ensures var end := After(s, ttl, LeftToDo(s.callers[h], h, data));
            && end.cache.closings == s.cache.closings + [s.callers[h].ch]
            && end.callers == s.callers[h := Idle]
  {
    match s.callers[h]
    case Collecting(_) =>
      var s' := Step(s, ttl, CollectReturns(h, data));
      CollectedFinishes(s', ttl, h);
      AfterFirst(s, ttl, CollectReturns(h, data), [Store(h), Finish(h)]);
      assert LeftToDo(s.callers[h], h, data) == [CollectReturns(h, data)] + [Store(h), Finish(h)];
    case Collected(_, _) => CollectedFinishes(s, ttl, h);
    case _ => AfterFirst(s, ttl, Finish(h), []);
  }

  lemma CollectedFinishes<T>(s: System<T>, ttl: int, h: nat)
    requires h < |s.callers| && s.callers[h].Collected?
    ensures var end := After(s, ttl, [Store(h), Finish(h)]);
            && end.cache.closings == s.cache.closings + [s.callers[h].ch]
            && end.callers == s.callers[h := Idle]
  {
    var s' := Step(s, ttl, Store(h));
    AfterFirst(s, ttl, Store(h), [Finish(h)]);
    AfterFirst(s', ttl, Finish(h), []);
    var last: seq<Event<T>> := [Finish(h)];
    assert [Store(h), Finish(h)] == [Store(h)] + last && last + [] == last;
  }

  lemma {:induction false} AfterFirst<T>(s: System<T>, ttl: int, e: Event<T>, rest: seq<Event<T>>)
    ensures After(s, ttl, [e] + rest) == After(Next(s, ttl, e), ttl, rest)
  {
    var all := [e] + rest;
    if rest == [] {
      assert all[..0] == [] && all[0] == e;
    } else {
      AfterFirst(s, ttl, e, rest[..|rest| - 1]);
      assert all[..|all| - 1] == [e] + rest[..|rest| - 1];
      assert all[|all| - 1] == rest[|rest| - 1];
    }
  }

  // ----- What a call meets -----

  /** Some caller has made a channel and not yet closed it. */
  predicate IsCollecting<T>(s: System<T>)
  {
    exists h :: 0 <= h < |s.callers| && s.callers[h].Holds()
  }

  /** The last result was stored less than a ttl ago. */
  predicate HasFreshResult<T>(s: System<T>, ttl: int)
  {
    s.origin in s.stores && s.now - s.stores[s.origin] < ttl
  }

  /**
   In every run, a call is answered at once, with the last result stored, if and only if that is younger
   than the ttl, also while a new one is being collected. Otherwise it waits for the newest channel if and
   only if somebody is collecting, and collects itself if nobody is.
   */
  lemma CallIsAnsweredAtOnceIff<T>(zero: T, n: nat, now: int, ttl: int, events: seq<Event<T>>, i: nat)
    requires var s := After(Start(zero, n, now), ttl, events); Enabled(s, Get(i))
    ensures var s := After(Start(zero, n, now), ttl, events);
            var s' := Step(s, ttl, Get(i));
            && (s'.callers[i].Idle? <==> HasFreshResult(s, ttl))
            && (s'.callers[i].Idle? ==>
                  && s.origin in s.results
                  && s'.answers == s.answers + [Return(s.results[s.origin], Fast, s.origin, s.now)])
            && (s'.callers[i].Waiting? <==> !HasFreshResult(s, ttl) && IsCollecting(s))
            && (s'.callers[i].Waiting? ==> s'.callers[i].ch == s.cache.made)
            && (s'.callers[i].Collecting? <==> !HasFreshResult(s, ttl) && !IsCollecting(s))
  {
    EveryRunIsSound(zero, n, now, ttl, events);
    FreshIff(After(Start(zero, n, now), ttl, events), ttl, zero);
    InflightIff(After(Start(zero, n, now), ttl, events));
  }

  lemma FreshIff<T>(s: System<T>, ttl: int, zero: T)
    requires Recorded(s, zero)
    ensures IsFresh(s.cache, ttl, s.now) <==> HasFreshResult(s, ttl)
    ensures HasFreshResult(s, ttl) ==> s.origin in s.results && s.cache.cached == s.results[s.origin]
  {
    assert s.origin in s.stores ==> s.origin in s.results && s.origin in s.started;
  }

  lemma InflightIff<T>(s: System<T>)
    requires OneCollector(s)
    ensures s.cache.inflight <==> IsCollecting(s)
    ensures s.cache.inflight ==> s.cache.waitCh == s.cache.made
  {
  }
}
