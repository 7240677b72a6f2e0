/** Which calls on the leases succeed, read off the tables, and the life of a worker between two tasks. */
module LeaseReplies {
  import opened Prelude
  import opened LeaseStore
  import opened LeaseProtocol
  import opened LeaseTheorems

  // ----- Each call -----

  /** The client takes an identifier unless it is empty or has a colon, a space, a tab or a line break in it. */
  predicate IsRejected(id: string)
  {
    id == "" || ':' in id || ' ' in id || '\t' in id || '\n' in id || '\r' in id
  }

  lemma RejectedIff(id: string)
    ensures ValidId(id) <==> !IsRejected(id)
  {
  }

  /** Somebody else holds the task. */
  predicate HeldByOther(s: System, t: Task, w: Worker)
  {
    t in s.tables.owner && s.tables.owner[t].worker != w
  }

  /** w is registered and its session names a task. */
  predicate Works(s: System, w: Worker)
  {
    w in s.tables.session && s.tables.session[w].task.Some?
  }

  /** After a successful call: the score is now, the session lasts until now + ttl, other workers are as they were. */
  predicate IsRefreshed(cfg: Config, s: System, s': System, w: Worker)
  {
    && s'.tables.now == s.tables.now && s'.jobs == s.jobs
    && w in s'.tables.session && s'.tables.session[w].deadline == s.tables.now + cfg.ttl
    && w in s'.tables.active && s'.tables.active[w] == s.tables.now
    && s'.tables.session - {w} == s.tables.session - {w} && s'.tables.active - {w} == s.tables.active - {w}
  }

  /**
   A claim is refused if and only if somebody else holds the task, in that worker's name. Otherwise the
   worker has it until now + ttl, with a new session for it.
   */
  lemma ClaimSucceedsIff(cfg: Config, s: System, w: Worker, t: Task, title: string, agentType: string)
    ensures var (s', r) := Step(cfg, s, Claim(w, t, title, agentType));
            && (r == InvalidId <==> IsRejected(w) || IsRejected(t))
            && (r != InvalidId && HeldByOther(s, t, w) ==> r == HeldBy(s.tables.owner[t].worker))
            && (r != InvalidId && !HeldByOther(s, t, w) ==>
                  && r == Done && IsRefreshed(cfg, s, s', w)
                  && t in s'.tables.owner && s'.tables.owner[t] == Lease(w, s.tables.now + cfg.ttl)
                  && s'.tables.owner - {t} == s.tables.owner - {t}
                  && s'.tables.session[w] ==
                     Session(Some(t), Some(title), true, Some(s.tables.now), Some(agentType), s.tables.now + cfg.ttl))
            && (r != Done ==> s' == s)
  {
    RejectedIff(w);
    RejectedIff(t);
  }

  /**
   A heartbeat finds no session if and only if the worker has none, and ownership lost if and only if its
   session names a task that somebody else holds. Otherwise, also between two tasks, it succeeds: session,
   score and the lease of the named task, if that is still there, are renewed.
   */
  lemma HeartbeatSucceedsIff(cfg: Config, s: System, w: Worker)
    ensures var (s', r) := Step(cfg, s, Heartbeat(w));
            var task := if w in s.tables.session then s.tables.session[w].task else None;
            && (r == InvalidId <==> IsRejected(w))
            && (!IsRejected(w) ==>
                  && (r == NoActiveSession <==> w !in s.tables.session)
                  && (r == OwnershipLost <==> Works(s, w) && HeldByOther(s, task.value, w))
                  && (r == Done <==> w in s.tables.session && !(Works(s, w) && HeldByOther(s, task.value, w))))
            && (r == Done ==>
                  && IsRefreshed(cfg, s, s', w)
                  && s'.tables.session[w] == s.tables.session[w].(deadline := s.tables.now + cfg.ttl)
                  && s'.tables.owner ==
                     if task.Some? && task.value in s.tables.owner
                     then s.tables.owner[task.value := Lease(w, s.tables.now + cfg.ttl)] else s.tables.owner)
            && (r != Done ==> s' == s)
  {
    RejectedIff(w);
  }

  /**
   A completion finds no task if and only if nobody holds it, and another owner if and only if somebody else
   does. Otherwise the lease is gone, and the worker has a session without a task.
   */
  lemma CompletionSucceedsIff(cfg: Config, s: System, w: Worker, t: Task)
    ensures var (s', r) := Step(cfg, s, Complete(w, t));
            && (r == InvalidId <==> IsRejected(w) || IsRejected(t))
            && (r != InvalidId ==>
                  && (r == TaskNotFound <==> t !in s.tables.owner)
                  && (r == NotOwner <==> HeldByOther(s, t, w))
                  && (r == Done <==> OwnedBy(s, t, w)))
            && (r == Done ==>
                  && IsRefreshed(cfg, s, s', w) && s'.tables.owner == s.tables.owner - {t}
                  && s'.tables.session[w].task == s'.tables.session[w].title == None
                  && !s'.tables.session[w].working && s'.tables.session[w].claimedAt == None
                  && s'.tables.session[w].agentType ==
                     (if w in s.tables.session then s.tables.session[w].agentType else None))
            && (r != Done ==> s' == s)
  {
    RejectedIff(w);
    RejectedIff(t);
  }

  /** A claimed task is renewed and completed by its worker, refused to others until then, and free again after. */
  lemma LeaseGoesRound(cfg: Config, s: System, w: Worker, v: Worker, t: Task, title: string, agentType: string)
    requires !IsRejected(w) && !IsRejected(v) && !IsRejected(t) && v != w && t !in s.tables.owner
    ensures var (claimed, granted) := Step(cfg, s, Claim(w, t, title, agentType));
            var (beaten, renewed) := Step(cfg, claimed, Heartbeat(w));
            var (completed, done) := Step(cfg, beaten, Complete(w, t));
            && granted == renewed == done == Done
            && Step(cfg, beaten, Claim(v, t, title, agentType)).1 == HeldBy(w)
            && Step(cfg, beaten, Complete(v, t)).1 == NotOwner
            && Step(cfg, completed, Claim(v, t, title, agentType)).1 == Done
            && Step(cfg, completed, Complete(w, t)).1 == TaskNotFound
            && Step(cfg, completed, Heartbeat(w)).1 == Done
  {
    ClaimSucceedsIff(cfg, s, w, t, title, agentType);
    var claimed := Step(cfg, s, Claim(w, t, title, agentType)).0;
    HeartbeatSucceedsIff(cfg, claimed, w);
    var beaten := Step(cfg, claimed, Heartbeat(w)).0;
    CompletionSucceedsIff(cfg, beaten, w, t);
    ClaimSucceedsIff(cfg, beaten, v, t, title, agentType);
    CompletionSucceedsIff(cfg, beaten, v, t);
    FreeAgain(cfg, Step(cfg, beaten, Complete(w, t)).0, w, v, t, title, agentType);
  }

  lemma FreeAgain(cfg: Config, s: System, w: Worker, v: Worker, t: Task, title: string, agentType: string)
    requires !IsRejected(w) && !IsRejected(v) && !IsRejected(t) && t !in s.tables.owner
    requires w in s.tables.session && s.tables.session[w].task == None
    ensures Step(cfg, s, Claim(v, t, title, agentType)).1 == Done
    ensures Step(cfg, s, Complete(w, t)).1 == TaskNotFound
    ensures Step(cfg, s, Heartbeat(w)).1 == Done
  {
    ClaimSucceedsIff(cfg, s, v, t, title, agentType);
    CompletionSucceedsIff(cfg, s, w, t);
    HeartbeatSucceedsIff(cfg, s, w);
  }

  // ----- Between two tasks -----

  /** What holds of a punctual worker without a task, last heard of at `beat`. */
  ghost predicate IdleAndGuarded(cfg: Config, s: System, w: Worker, beat: int)
  {
    && !IsRejected(w)
    && w in s.tables.session && s.tables.session[w].task == None && s.tables.session[w].deadline == beat + cfg.ttl
    && (w in s.tables.active ==> s.tables.active[w] == beat)
    && Harmless(s, w)
  }

  lemma IdleStep(cfg: Config, s: System, e: Event, w: Worker, beat: int)
    requires IdleAndGuarded(cfg, s, w, beat)
    requires ActsFor(e, w) ==> e == Heartbeat(w)
    requires s.tables.now - beat < cfg.threshold
    requires Step(cfg, s, e).0.tables.now - (if e == Heartbeat(w) then s.tables.now else beat) < cfg.ttl
    ensures IdleAndGuarded(cfg, Step(cfg, s, e).0, w, if e == Heartbeat(w) then s.tables.now else beat)
    ensures NoNewJob(s, Step(cfg, s, e).0, w)
    ensures e == Heartbeat(w) ==> Step(cfg, s, e).1 == Done
  {
    var s' := Step(cfg, s, e).0;
    if e == Heartbeat(w) {
      HeartbeatSucceedsIff(cfg, s, w);
    }
    forall d: nat
      ensures PhaseOf(s', d, w) == None || PhaseOf(s', d, w) == PhaseOf(s, d, w)
    {
      if (d, w) in s.jobs {
        assert IsHarmless(s.jobs[(d, w)]);
      }
    }
    HarmlessStays(s, s', w);
  }

  lemma {:induction false} IdleThroughout(run: Run, w: Worker, k: nat)
    requires k <= |run.events| && run.Punctual(w)
    requires IdleAndGuarded(run.cfg, run.start, w, run.start.tables.now)
    ensures IdleAndGuarded(run.cfg, run.At(k), w, run.LastBeat(w, k))
    ensures NoNewJob(run.start, run.At(k), w)
  {
    if k > 0 {
      IdleThroughout(run, w, k - 1);
      assert run.At(k).tables.now - run.LastBeat(w, k) < Min(run.cfg.ttl, run.cfg.threshold);
      assert run.At(k - 1).tables.now - run.LastBeat(w, k - 1) < Min(run.cfg.ttl, run.cfg.threshold);
      IdleStep(run.cfg, run.At(k - 1), run.events[k - 1], w, run.LastBeat(w, k - 1));
    }
  }

  /** w has a session throughout the run and all its beats succeed. */
  ghost predicate KeepsSession(run: Run, w: Worker)
  {
    && (forall k | 0 <= k <= |run.events| :: w in run.At(k).tables.session)
    && (forall k | 0 <= k < |run.events| && run.events[k] == Heartbeat(w) :: run.ReplyAt(k) == Done)
  }

  /**
   A worker that completes its task while no cleanup threatens it, and then beats punctually, keeps its
   session in every interleaving: its beats succeed and no detector lists it.
   */
  lemma IdleWorkerIsSafe(run: Run, before: System, w: Worker, t: Task)
    requires Step(run.cfg, before, Complete(w, t)) == (run.start, Done)
    requires Harmless(before, w) && run.Punctual(w)
    ensures KeepsSession(run, w)
    ensures forall k | 0 <= k <= |run.events| :: NoNewJob(before, run.At(k), w)
  {
    CompletionSucceedsIff(run.cfg, before, w, t);
    forall k: nat | k <= |run.events|
      ensures w in run.At(k).tables.session && NoNewJob(before, run.At(k), w)
    {
      IdleThroughout(run, w, k);
      forall d: nat
        ensures PhaseOf(run.At(k), d, w) == None || PhaseOf(run.At(k), d, w) == PhaseOf(before, d, w)
      {
        assert PhaseOf(run.start, d, w) == PhaseOf(before, d, w);
      }
    }
    forall k: nat | k < |run.events| && run.events[k] == Heartbeat(w)
      ensures run.ReplyAt(k) == Done
    {
      IdleThroughout(run, w, k);
      HeartbeatSucceedsIff(run.cfg, run.At(k), w);
    }
  }

  /** Exactly the condition under which a claim is safe makes an idle worker safe too. */
  lemma IdleWorkerIsSafeIff(cfg: Config, before: System, after: System, w: Worker, t: Task)
    requires cfg.ttl > 0 && cfg.threshold > 0
    requires Step(cfg, before, Complete(w, t)) == (after, Done)
    ensures (forall events | Run(cfg, after, events).Punctual(w) :: KeepsSession(Run(cfg, after, events), w))
            <==> Harmless(before, w)
  {
    if Harmless(before, w) {
      forall events | Run(cfg, after, events).Punctual(w)
        ensures KeepsSession(Run(cfg, after, events), w)
      {
        IdleWorkerIsSafe(Run(cfg, after, events), before, w, t);
      }
    } else {
      CompletionSucceedsIff(cfg, before, w, t);
      var d: nat :| (d, w) in before.jobs && !IsHarmless(before.jobs[(d, w)]);
      var events := HarmfulEvents(d, w, after.jobs[(d, w)]);
      HarmfulRunIsPunctual(cfg, after, d, w, after.jobs[(d, w)]);
      HarmfulJobEndsTheSession(cfg, after, d, w);
      assert events[|events| - 1] == Heartbeat(w);
      assert !KeepsSession(Run(cfg, after, events), w);
    }
  }

  // ----- A cleanup left alone -----

  /** The lease that a cleanup takes: that of the task it has read, if its worker is still the owner. */
  function WithoutLease(s: Tables, w: Worker, task: Option<Task>): map<Task, Lease>
  {
    if task.Some? && task.value in s.owner && s.owner[task.value].worker == w then s.owner - {task.value} else s.owner
  }

  /**
   A job that nothing comes between: four steps, each of which happens, take the lease the session names,
   the session and the entry of its worker, nothing else, and end the job. With a task name that the client
   rejects the second step ends it, and nothing is taken.
   */
  lemma JobRunsToItsEnd(cfg: Config, s: System, d: nat, w: Worker)
    requires PhaseOf(s, d, w) == Some(Listed)
    ensures var task := if w in s.tables.session then s.tables.session[w].task else None;
            var (s1, r1) := Step(cfg, s, ReadState(d, w));
            var (s2, r2) := Step(cfg, s1, ClearOwner(d, w));
            var (s3, r3) := Step(cfg, s2, ClearState(d, w));
            var (s4, r4) := Step(cfg, s3, ClearActive(d, w));
            && s1 == System(s.tables, s.jobs[(d, w) := Found(task)]) && r1 == r2 == Done
            && if task.Some? && (IsRejected(task.value) || IsRejected(w)) then
                 s2 == System(s.tables, s.jobs - {(d, w)}) && r3 == r4 == Ignored && s4 == s2
               else
                 && r3 == r4 == Done && s4.jobs == s.jobs - {(d, w)}
                 && s4.tables == Tables(s.tables.now, WithoutLease(s.tables, w, task),
                                        s.tables.session - {w}, s.tables.active - {w})
  {
    var task := if w in s.tables.session then s.tables.session[w].task else None;
    RejectedIff(w);
    if task.Some? {
      RejectedIff(task.value);
    }
    var s1 := Step(cfg, s, ReadState(d, w)).0;
    assert s1 == System(s.tables, s.jobs[(d, w) := Found(task)]);
    var s2 := Step(cfg, s1, ClearOwner(d, w)).0;
    if task.Some? && (IsRejected(task.value) || IsRejected(w)) {
      assert s2.jobs == s.jobs - {(d, w)};
    } else {
      LastTwoSteps(cfg, s2, d, w);
      assert s2.jobs - {(d, w)} == s.jobs - {(d, w)};
    }
  }

  lemma LastTwoSteps(cfg: Config, s: System, d: nat, w: Worker)
    requires PhaseOf(s, d, w) == Some(OwnerCleared)
    ensures var (s1, r1) := Step(cfg, s, ClearState(d, w));
            var (s2, r2) := Step(cfg, s1, ClearActive(d, w));
            && r1 == r2 == Done && s2.jobs == s.jobs - {(d, w)}
            && s2.tables == s.tables.(session := s.tables.session - {w}, active := s.tables.active - {w})
  {
    assert (s.jobs[(d, w) := StateCleared]) - {(d, w)} == s.jobs - {(d, w)};
  }

  /** A scan lists exactly the workers not heard of for the threshold, unless a job of the detector is pending. */
  lemma ScanListsIff(cfg: Config, s: System, d: nat, w: Worker)
    requires forall job | job in s.jobs :: job.0 != d
    ensures var (s', r) := Step(cfg, s, Scan(d));
            && r == Done && s'.tables == s.tables
            && (PhaseOf(s', d, w) == Some(Listed) <==>
                w in s.tables.active && s.tables.now - s.tables.active[w] >= cfg.threshold)
            && (PhaseOf(s', d, w) == None <==>
                !(w in s.tables.active && s.tables.now - s.tables.active[w] >= cfg.threshold))
            && forall e: nat | e != d :: PhaseOf(s', e, w) == PhaseOf(s, e, w)
  {
  }
}
