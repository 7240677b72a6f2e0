/**
 Assignment of epics to worktrees. What the issue tracker answers comes in as parameters: the open
 epics, or None when the query failed, and the epics that answered that they have ready tasks.
 */
module EpicAssigner {
  import opened Prelude

  datatype EpicInfo = EpicInfo(id: string, priority: int)

  datatype Answer = Answer(open: Option<seq<EpicInfo>>, ready: set<string>)

  type Assignments = map<string, string>

  predicate Better(a: EpicInfo, b: EpicInfo)
  {
    if a.priority != b.priority then a.priority < b.priority else StringLess(a.id, b.id)
  }

  predicate Candidate(assignments: Assignments, answer: Answer, epic: EpicInfo)
  {
    epic.id !in assignments.Values && epic.id in answer.ready
  }

  function Candidates(assignments: Assignments, answer: Answer, epics: seq<EpicInfo>): seq<EpicInfo>
  {
    if epics == [] then [] else
      Candidates(assignments, answer, epics[..|epics| - 1])
      + if Candidate(assignments, answer, epics[|epics| - 1]) then [epics[|epics| - 1]] else []
  }

  function Best(epics: seq<EpicInfo>): EpicInfo
    requires epics != []
  {
    if |epics| == 1 then epics[0]
    else
      var best := Best(epics[..|epics| - 1]);
      if Better(epics[|epics| - 1], best) then epics[|epics| - 1] else best
  }

  /** The epic the worktree gets, "" for none, None when the query failed. */
  function Assigned(assignments: Assignments, worktree: string, answer: Answer): Option<string>
  {
    if worktree in assignments then Some(assignments[worktree])
    else if answer.open == None then None
    else
      var candidates := Candidates(assignments, answer, answer.open.value);
      if candidates == [] then Some("") else Some(Best(candidates).id)
  }

  function AfterAssign(assignments: Assignments, worktree: string, answer: Answer): Assignments
  {
    if worktree in assignments || answer.open == None then assignments
    else
      var candidates := Candidates(assignments, answer, answer.open.value);
      if candidates == [] then assignments else assignments[worktree := Best(candidates).id]
  }

  class Assigner {
    var assignments: Assignments

    constructor ()
      ensures assignments == map[]
    {
      assignments := map[];
    }

    method AssignWorktree(worktree: string, answer: Answer) returns (epic: Option<string>)
      modifies this
      ensures epic == Assigned(old(assignments), worktree, answer)
      ensures assignments == AfterAssign(old(assignments), worktree, answer)
    {
      if worktree in assignments {
        return Some(assignments[worktree]);
      }
      if answer.open == None {
        return None;
      }
      var epics := answer.open.value;
      if |epics| == 0 {
        return Some("");
      }
      var taken := assignments.Values;
      var candidates := [];
      for i := 0 to |epics|
        invariant candidates == Candidates(assignments, answer, epics[..i])
      {
        assert epics[..i + 1][..i] == epics[..i];
        if epics[i].id !in taken && epics[i].id in answer.ready {
          candidates := candidates + [epics[i]];
        }
      }
      assert epics[..|epics|] == epics;
      if |candidates| == 0 {
        return Some("");
      }
      // The source sorts the candidates and takes the first.
      var chosen := candidates[0];
      for i := 1 to |candidates|
        invariant chosen == Best(candidates[..i])
      {
        assert candidates[..i + 1][..i] == candidates[..i];
        if Better(candidates[i], chosen) {
          chosen := candidates[i];
        }
      }
      assert candidates[..|candidates|] == candidates;
      assignments := assignments[worktree := chosen.id];
      return Some(chosen.id);
    }

    method ReleaseWorktree(worktree: string)
      modifies this
      ensures assignments == old(assignments) - {worktree}
    {
      if worktree in assignments {
        assignments := assignments - {worktree};
      }
    }
  }

  // ----- What assignment guarantees -----

  ghost predicate Injective(assignments: Assignments)
  {
    forall a, b | a in assignments && b in assignments && assignments[a] == assignments[b] :: a == b
  }

  lemma {:induction false} CandidatesAreTheCandidates(assignments: Assignments, answer: Answer, epics: seq<EpicInfo>)
    ensures forall e :: e in Candidates(assignments, answer, epics) <==> e in epics && Candidate(assignments, answer, e)
  {
    if epics != [] {
      CandidatesAreTheCandidates(assignments, answer, epics[..|epics| - 1]);
      assert epics == epics[..|epics| - 1] + [epics[|epics| - 1]];
    }
  }

  lemma BetterIsTransitive(a: EpicInfo, b: EpicInfo, c: EpicInfo)
    requires Better(a, b) && !Better(c, b)
    ensures !Better(c, a)
  {
    StringLessIsTotal(b.id, c.id);
    StringLessIsTotal(a.id, c.id);
    if a.priority == b.priority == c.priority && b.id != c.id {
      StringLessIsTransitive(a.id, b.id, c.id);
    }
  }

  lemma {:induction false} NothingIsBetterThanBest(epics: seq<EpicInfo>)
    requires epics != []
    ensures Best(epics) in epics
    ensures forall e | e in epics :: !Better(e, Best(epics))
  {
    var last := epics[|epics| - 1];
    StringLessIsTotal(last.id, last.id);
    if |epics| > 1 {
      var init := epics[..|epics| - 1];
      NothingIsBetterThanBest(init);
      assert epics == init + [last];
      if Better(last, Best(init)) {
        forall e | e in init ensures !Better(e, last) {
          BetterIsTransitive(last, Best(init), e);
        }
      }
    }
  }

  /**
   A worktree without an epic gets the best open epic that has ready tasks and that no worktree holds,
   whatever the order of the tracker's answer, and none exactly when there is no such epic. Two
   worktrees never hold the same epic.
   */
  lemma AssignmentIsBestAndExclusive(assignments: Assignments, worktree: string, answer: Answer)
    requires Injective(assignments) && worktree !in assignments && answer.open.Some?
    ensures Injective(AfterAssign(assignments, worktree, answer))
    ensures worktree in AfterAssign(assignments, worktree, answer) <==>
            exists e :: e in answer.open.value && Candidate(assignments, answer, e)
    ensures worktree in AfterAssign(assignments, worktree, answer) ==>
              exists e :: && e in answer.open.value && Candidate(assignments, answer, e)
                          && Assigned(assignments, worktree, answer) == Some(e.id)
                          && AfterAssign(assignments, worktree, answer) == assignments[worktree := e.id]
                          && forall f | f in answer.open.value && Candidate(assignments, answer, f) :: !Better(f, e)
  {
    var candidates := Candidates(assignments, answer, answer.open.value);
    CandidatesAreTheCandidates(assignments, answer, answer.open.value);
    if candidates != [] {
      NothingIsBetterThanBest(candidates);
      var e := Best(candidates);
      forall a | a in assignments ensures assignments[a] != e.id {
        assert assignments[a] in assignments.Values;
      }
    } else {
      forall e | e in answer.open.value ensures !Candidate(assignments, answer, e) {
        assert e !in candidates;
      }
    }
  }

  // ----- In terms of priorities -----

  /** No worktree holds the epic, and it answered that it has ready tasks. */
  ghost predicate IsFree(assignments: Assignments, answer: Answer, epic: EpicInfo)
  {
    epic.id in answer.ready && forall w | w in assignments :: assignments[w] != epic.id
  }

  lemma CandidateIsFree(assignments: Assignments, answer: Answer, epic: EpicInfo)
    ensures Candidate(assignments, answer, epic) <==> IsFree(assignments, answer, epic)
  {
    if Candidate(assignments, answer, epic) {
      forall w | w in assignments
        ensures assignments[w] != epic.id
      {
        assert assignments[w] in assignments.Values;
      }
    }
  }

  /**
   The epic assigned is open and free, and every other open and free one has a higher priority number, or
   the same number and a later id.
   */
  lemma LowestNumberIsAssigned(assignments: Assignments, worktree: string, answer: Answer)
    requires Injective(assignments) && worktree !in assignments && answer.open.Some?
    requires exists e :: e in answer.open.value && IsFree(assignments, answer, e)
    ensures exists e ::
              && e in answer.open.value && IsFree(assignments, answer, e)
              && Assigned(assignments, worktree, answer) == Some(e.id)
              && AfterAssign(assignments, worktree, answer) == assignments[worktree := e.id]
              && forall f | f in answer.open.value && IsFree(assignments, answer, f) ::
                   e.priority < f.priority || (e.priority == f.priority && (e.id == f.id || StringLess(e.id, f.id)))
  {
    forall e
      ensures Candidate(assignments, answer, e) <==> IsFree(assignments, answer, e)
    {
      CandidateIsFree(assignments, answer, e);
    }
    AssignmentIsBestAndExclusive(assignments, worktree, answer);
    var e :| && e in answer.open.value && Candidate(assignments, answer, e)
             && Assigned(assignments, worktree, answer) == Some(e.id)
             && AfterAssign(assignments, worktree, answer) == assignments[worktree := e.id]
             && forall f | f in answer.open.value && Candidate(assignments, answer, f) :: !Better(f, e);
    forall f | f in answer.open.value && IsFree(assignments, answer, f)
      ensures e.priority < f.priority || (e.priority == f.priority && (e.id == f.id || StringLess(e.id, f.id)))
    {
      assert !Better(f, e);
      StringLessIsTotal(e.id, f.id);
    }
  }

  /** Nothing changes for a worktree that has an epic, when the query fails, and when no open epic is free. */
  lemma AssignmentIsKept(assignments: Assignments, worktree: string, answer: Answer)
    ensures worktree in assignments ==>
              && Assigned(assignments, worktree, answer) == Some(assignments[worktree])
              && AfterAssign(assignments, worktree, answer) == assignments
    ensures worktree !in assignments && answer.open == None ==>
              && Assigned(assignments, worktree, answer) == None
              && AfterAssign(assignments, worktree, answer) == assignments
    ensures worktree !in assignments && answer.open.Some?
            && (forall e | e in answer.open.value :: !IsFree(assignments, answer, e)) ==>
              && Assigned(assignments, worktree, answer) == Some("")
              && AfterAssign(assignments, worktree, answer) == assignments
  {
    if worktree !in assignments && answer.open.Some? {
      var candidates := Candidates(assignments, answer, answer.open.value);
      CandidatesAreTheCandidates(assignments, answer, answer.open.value);
      if candidates != [] {
        assert candidates[0] in candidates;
        CandidateIsFree(assignments, answer, candidates[0]);
      }
    }
  }
}
