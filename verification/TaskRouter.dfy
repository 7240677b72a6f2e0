/**
 Which task an agent of a role takes: the categories of issues, the score of one issue against the
 role's constraints, and the choice of the best of many. Only the fields that routing reads are kept.
 */
module TaskRouter {
  import opened Prelude

  datatype Dependency = Dependency(kind: string, dependsOn: string)

  datatype Issue = Issue(
    id: string, status: string, priority: int, issueType: string, design: string,
    labels: seq<string>, dependencies: seq<Dependency>)

  datatype Constraints = Constraints(taskFilter: string, skills: seq<string>, maxPriority: Option<int>)

  datatype TaskMatch = TaskMatch(issue: Issue, score: int)

  // ----- Categories -----

  const NEEDS_REVISION := "needs-revision"

  predicate IsEpic(issue: Issue) { issue.issueType == "epic" }

  predicate IsOpen(issue: Issue) { issue.status == "open" }

  predicate HasDesign(issue: Issue) { issue.design != "" }

  predicate HasNeedsRevision(issue: Issue) { NEEDS_REVISION in issue.labels }

  predicate NeedsPlan(issue: Issue) { !HasDesign(issue) || HasNeedsRevision(issue) }

  predicate ReadyToImplement(issue: Issue) { HasDesign(issue) && !HasNeedsRevision(issue) }

  predicate IsWorkableTask(issue: Issue) { IsOpen(issue) && !IsEpic(issue) }

  predicate AffectsReadyWork(kind: string)
  {
    kind == "blocks" || kind == "parent-child" || kind == "conditional-blocks" || kind == "waits-for"
  }

  predicate HasUnclosedBlockers(issue: Issue, unclosed: set<string>)
  {
    exists dep :: dep in issue.dependencies && AffectsReadyWork(dep.kind) && dep.dependsOn in unclosed
  }

  predicate IsAvailableForPlanning(issue: Issue, unclosed: set<string>)
  {
    IsWorkableTask(issue) && !HasUnclosedBlockers(issue, unclosed) && NeedsPlan(issue)
  }

  predicate IsAvailableForImplementation(issue: Issue, unclosed: set<string>)
  {
    IsWorkableTask(issue) && !HasUnclosedBlockers(issue, unclosed) && ReadyToImplement(issue)
  }

  predicate IsAvailableForAny(issue: Issue, unclosed: set<string>)
  {
    IsWorkableTask(issue) && !HasUnclosedBlockers(issue, unclosed)
  }

  // ----- Scoring -----

  /** How many of the role's skills, counted with repetition, are among the labels. */
  function SkillMatches(labels: seq<string>, skills: seq<string>): nat
  {
    if skills == [] then 0
    else SkillMatches(labels, skills[..|skills| - 1]) + if skills[|skills| - 1] in labels then 1 else 0
  }

  method CountSkillMatches(labels: seq<string>, skills: seq<string>) returns (count: nat)
    ensures count == SkillMatches(labels, skills)
  {
    count := 0;
    if |skills| == 0 || |labels| == 0 {
      NoLabelsNoMatches(skills);
      return;
    }
    var labelSet := {};
    for i := 0 to |labels|
      invariant forall l :: l in labelSet <==> l in labels[..i]
    {
      labelSet := labelSet + {labels[i]};
    }
    assert labels[..|labels|] == labels;
    for i := 0 to |skills|
      invariant count == SkillMatches(labels, skills[..i])
    {
      assert skills[..i + 1][..i] == skills[..i];
      if skills[i] in labelSet {
        count := count + 1;
      }
    }
    assert skills[..|skills|] == skills;
  }

  lemma {:induction false} NoLabelsNoMatches(skills: seq<string>)
    ensures SkillMatches([], skills) == 0
  {
    if skills != [] {
      NoLabelsNoMatches(skills[..|skills| - 1]);
    }
  }

  /** 20 - 4 * priority between 0 and 20, in 64-bit arithmetic. */
  function PriorityBonus(priority: int): int { Max(0, Min(20, Wrap64(20 - Wrap64(priority * 4)))) }

  predicate PassesFilter(issue: Issue, taskFilter: string)
  {
    var filter := if taskFilter == "" then "has_design" else taskFilter;
    if filter == "needs_plan" then NeedsPlan(issue)
    else if filter == "has_design" then ReadyToImplement(issue)
    else if filter == "any" then true
    else ReadyToImplement(issue)
  }

  /** 0 rejects; 10 is the fallback of a role with skills for a task that asks for none of them. */
  function Score(issue: Issue, constraints: Constraints, unclosed: set<string>): int
  {
    if IsEpic(issue) then 0
    else if !IsOpen(issue) then 0
    else if HasUnclosedBlockers(issue, unclosed) then 0
    else if !PassesFilter(issue, constraints.taskFilter) then 0
    else if constraints.maxPriority.Some? && issue.priority > constraints.maxPriority.value then 0
    else
      var matches := SkillMatches(issue.labels, constraints.skills);
      if |constraints.skills| > 0 && matches == 0 then 10
      else 100 + matches * 50 + PriorityBonus(issue.priority)
  }

  function MatchTask(issue: Issue, constraints: Constraints, unclosed: set<string>): TaskMatch
  {
    TaskMatch(issue, Score(issue, constraints, unclosed))
  }

  // ----- Choosing -----

  /** The order matches are sorted by. */
  predicate Less(a: TaskMatch, b: TaskMatch)
  {
    if a.score != b.score then a.score > b.score
    else if a.issue.priority != b.issue.priority then a.issue.priority < b.issue.priority
    else StringLess(a.issue.id, b.issue.id)
  }

  ghost predicate Sorted(matches: seq<TaskMatch>)
  {
    forall i, j | 0 <= i < j < |matches| :: !Less(matches[j], matches[i])
  }

  lemma NotLessIsTransitive(a: TaskMatch, b: TaskMatch, c: TaskMatch)
    requires !Less(b, a) && !Less(c, b)
    ensures !Less(c, a)
  {
    StringLessIsTotal(a.issue.id, b.issue.id);
    StringLessIsTotal(b.issue.id, c.issue.id);
    StringLessIsTotal(a.issue.id, c.issue.id);
    if StringLess(a.issue.id, b.issue.id) && StringLess(b.issue.id, c.issue.id) {
      StringLessIsTransitive(a.issue.id, b.issue.id, c.issue.id);
    }
  }

  lemma LessIsAsymmetric(a: TaskMatch, b: TaskMatch)
    ensures !(Less(a, b) && Less(b, a))
  {
    StringLessIsTotal(a.issue.id, b.issue.id);
  }

  /** A sorted sequence with a match put in where everything before is not after it. */
  lemma InsertKeepsSorted(matches: seq<TaskMatch>, k: nat, m: TaskMatch)
    requires Sorted(matches) && k <= |matches|
    requires k > 0 ==> !Less(m, matches[k - 1])
    requires k < |matches| ==> Less(m, matches[k])
    ensures Sorted(matches[..k] + [m] + matches[k..])
  {
    forall i | 0 <= i < k
      ensures !Less(m, matches[i])
    {
      if i < k - 1 {
        NotLessIsTransitive(matches[i], matches[k - 1], m);
      }
    }
    forall i | k <= i < |matches|
      ensures !Less(matches[i], m)
    {
      LessIsAsymmetric(m, matches[k]);
      if i > k {
        NotLessIsTransitive(m, matches[k], matches[i]);
      }
    }
  }

  lemma InsertAddsOne(matches: seq<TaskMatch>, k: nat, m: TaskMatch)
    requires k <= |matches|
    ensures multiset(matches[..k] + [m] + matches[k..]) == multiset(matches) + multiset{m}
  {
    assert matches == matches[..k] + matches[k..];
  }

  method Insert(sorted: seq<TaskMatch>, m: TaskMatch) returns (longer: seq<TaskMatch>)
    requires Sorted(sorted)
    ensures multiset(longer) == multiset(sorted) + multiset{m}
    ensures Sorted(longer)
  {
    var k := |sorted|;
    while k > 0 && Less(m, sorted[k - 1])
      invariant 0 <= k <= |sorted|
      invariant k < |sorted| ==> Less(m, sorted[k])
    {
      k := k - 1;
    }
    InsertKeepsSorted(sorted, k, m);
    InsertAddsOne(sorted, k, m);
    longer := sorted[..k] + [m] + sorted[k..];
  }

  /** Stands for the library's sort, which promises no more than this. */
  method Sort(matches: seq<TaskMatch>) returns (sorted: seq<TaskMatch>)
    ensures multiset(sorted) == multiset(matches)
    ensures Sorted(sorted)
  {
    sorted := [];
    for i := 0 to |matches|
      invariant multiset(sorted) == multiset(matches[..i])
      invariant Sorted(sorted)
    {
      assert matches[..i + 1] == matches[..i] + [matches[i]];
      sorted := Insert(sorted, matches[i]);
    }
    assert matches[..|matches|] == matches;
  }

  /** The matches with a positive score, in order. */
  function Matches(issues: seq<Issue>, constraints: Constraints, unclosed: set<string>): seq<TaskMatch>
  {
    if issues == [] then []
    else
      var m := MatchTask(issues[|issues| - 1], constraints, unclosed);
      Matches(issues[..|issues| - 1], constraints, unclosed) + if m.score > 0 then [m] else []
  }

  /** Some match that none is before, or None when there are none. */
  ghost predicate IsChoice(matches: seq<TaskMatch>, chosen: Option<TaskMatch>)
  {
    match chosen
    case None => matches == []
    case Some(m) => m in matches && forall other | other in matches :: !Less(other, m)
  }

  method SelectBestTask(issues: seq<Issue>, constraints: Constraints, unclosed: set<string>)
    returns (chosen: Option<TaskMatch>)
    ensures IsChoice(Matches(issues, constraints, unclosed), chosen)
  {
    var matches := [];
    for i := 0 to |issues|
      invariant matches == Matches(issues[..i], constraints, unclosed)
    {
      assert issues[..i + 1][..i] == issues[..i];
      var m := MatchTask(issues[i], constraints, unclosed);
      if m.score > 0 {
        matches := matches + [m];
      }
    }
    assert issues[..|issues|] == issues;
    if |matches| == 0 {
      return None;
    }
    var sorted := Sort(matches);
    FirstIsChoice(matches, sorted);
    chosen := Some(sorted[0]);
  }

  lemma FirstIsChoice(matches: seq<TaskMatch>, sorted: seq<TaskMatch>)
    requires multiset(sorted) == multiset(matches) && Sorted(sorted) && matches != []
    ensures sorted != [] && IsChoice(matches, Some(sorted[0]))
  {
    assert |multiset(sorted)| == |multiset(matches)|;
    assert sorted[0] in multiset(matches);
    forall other | other in matches
      ensures !Less(other, sorted[0])
    {
      assert other in multiset(sorted);
      var j :| 0 <= j < |sorted| && sorted[j] == other;
      LessIsAsymmetric(other, sorted[0]);
    }
  }

  // ----- Main results -----

  /** The availability predicate the role's filter stands for; an unknown filter is taken for has_design. */
  predicate IsAvailableFor(issue: Issue, constraints: Constraints, unclosed: set<string>)
  {
    match constraints.taskFilter
    case "needs_plan" => IsAvailableForPlanning(issue, unclosed)
    case "any" => IsAvailableForAny(issue, unclosed)
    case _ => IsAvailableForImplementation(issue, unclosed)
  }

  predicate IsEligible(issue: Issue, constraints: Constraints, unclosed: set<string>)
  {
    && IsAvailableFor(issue, constraints, unclosed)
    && (constraints.maxPriority.Some? ==> issue.priority <= constraints.maxPriority.value)
  }

  /** A task is offered exactly when the predicate the other agents use says so and the cap allows it. */
  lemma ScoreAgreesWithAvailability(issue: Issue, constraints: Constraints, unclosed: set<string>)
    ensures Score(issue, constraints, unclosed) > 0 <==> IsEligible(issue, constraints, unclosed)
    ensures Score(issue, constraints, unclosed) >= 0
  {
  }

  lemma {:induction false} MatchesAreTheEligible(issues: seq<Issue>, constraints: Constraints,
        unclosed: set<string>, m: TaskMatch)
    ensures m in Matches(issues, constraints, unclosed) <==>
            m.issue in issues && IsEligible(m.issue, constraints, unclosed)
              && m.score == Score(m.issue, constraints, unclosed)
  {
    if issues != [] {
      var init, last := issues[..|issues| - 1], issues[|issues| - 1];
      assert issues == init + [last];
      MatchesAreTheEligible(init, constraints, unclosed, m);
      ScoreAgreesWithAvailability(last, constraints, unclosed);
    }
  }

  /** Something is chosen if and only if some issue is eligible. */
  lemma ChoiceExistsIff(issues: seq<Issue>, constraints: Constraints, unclosed: set<string>, chosen: Option<TaskMatch>)
    requires IsChoice(Matches(issues, constraints, unclosed), chosen)
    ensures chosen.Some? <==> exists issue :: issue in issues && IsEligible(issue, constraints, unclosed)
  {
    if chosen.Some? {
      MatchesAreTheEligible(issues, constraints, unclosed, chosen.value);
    } else {
      forall issue | issue in issues
        ensures !IsEligible(issue, constraints, unclosed)
      {
        MatchesAreTheEligible(issues, constraints, unclosed, MatchTask(issue, constraints, unclosed));
      }
    }
  }

  predicate IsFallback(issue: Issue, constraints: Constraints)
  {
    constraints.skills != [] && SkillMatches(issue.labels, constraints.skills) == 0
  }

  /** Away from the fallback, the one number orders tasks by skill matches first and bonus second. */
  lemma ScoreIsLexicographic(a: Issue, b: Issue, constraints: Constraints, unclosed: set<string>)
    requires IsEligible(a, constraints, unclosed) && !IsFallback(a, constraints)
    requires IsEligible(b, constraints, unclosed) && !IsFallback(b, constraints)
    ensures var (ma, mb) := (SkillMatches(a.labels, constraints.skills), SkillMatches(b.labels, constraints.skills));
            Score(a, constraints, unclosed) > Score(b, constraints, unclosed) <==>
            ma > mb || (ma == mb && PriorityBonus(a.priority) > PriorityBonus(b.priority))
  {
  }

  /** The fallback is chosen if and only if tasks are eligible but none asks for a skill of the role. */
  lemma FallbackWinsIff(issues: seq<Issue>, constraints: Constraints, unclosed: set<string>, m: TaskMatch)
    requires IsChoice(Matches(issues, constraints, unclosed), Some(m))
    ensures m.score == 10 <==> forall issue | issue in issues && IsEligible(issue, constraints, unclosed) ::
            IsFallback(issue, constraints)
  {
    MatchesAreTheEligible(issues, constraints, unclosed, m);
    if m.score == 10 {
      forall issue | issue in issues && IsEligible(issue, constraints, unclosed)
        ensures IsFallback(issue, constraints)
      {
        var other := MatchTask(issue, constraints, unclosed);
        MatchesAreTheEligible(issues, constraints, unclosed, other);
        assert !Less(other, m);
      }
    }
  }

  /** The 64-bit priorities whose four-fold does not wrap to the wrong side of the bounds. */
  predicate BonusIsExact(priority: int)
  {
    var turn, half := 0x4000_0000_0000_0000, 0x2000_0000_0000_0000;
    if priority >= 0 then priority <= half + 5 || turn + 5 <= priority <= turn + half + 5
    else -priority < half - 5 || turn <= -priority < turn + half - 5 || -priority == 2 * turn
  }

  /** For a 64-bit priority the bonus is 20 - 4 * priority clamped to [0, 20] if and only if it does not wrap. */
  lemma BonusIsClampedIff(priority: int)
    requires -INT64_LIMIT <= priority < INT64_LIMIT
    ensures PriorityBonus(priority) == Max(0, Min(20, 20 - 4 * priority)) <==> BonusIsExact(priority)
  {
  }

  /** A task of absurdly low urgency can outrank an urgent one. */
  lemma WrappedBonusMisleads()
    ensures PriorityBonus(0x4000_0000_0000_0001) == 16 > PriorityBonus(2) == 12
  {
  }

  /** More of the role's skills first, then the lower priority number, then the id. */
  predicate Precedes(a: Issue, b: Issue, skills: seq<string>)
  {
    var (ma, mb) := (SkillMatches(a.labels, skills), SkillMatches(b.labels, skills));
    if ma != mb then ma > mb
    else if a.priority != b.priority then a.priority < b.priority
    else StringLess(a.id, b.id)
  }

  /**
   All the scoring comes to one simple order, fallback included, as long as no bonus wraps: the bonus
   never decreases with urgency, so within equal skill matches it and the tie-break agree.
   */
  lemma RankingIsSimple(a: Issue, b: Issue, constraints: Constraints, unclosed: set<string>)
    requires IsEligible(a, constraints, unclosed) && IsEligible(b, constraints, unclosed)
    requires -INT64_LIMIT <= a.priority < INT64_LIMIT && BonusIsExact(a.priority)
    requires -INT64_LIMIT <= b.priority < INT64_LIMIT && BonusIsExact(b.priority)
    ensures Less(MatchTask(a, constraints, unclosed), MatchTask(b, constraints, unclosed)) <==>
            Precedes(a, b, constraints.skills)
  {
    BonusIsClampedIff(a.priority);
    BonusIsClampedIff(b.priority);
    NoSkillsNoMatches(a.labels, constraints.skills);
    NoSkillsNoMatches(b.labels, constraints.skills);
  }

  lemma NoSkillsNoMatches(labels: seq<string>, skills: seq<string>)
    ensures skills == [] ==> SkillMatches(labels, skills) == 0
  {
  }

  // ----- Order of the input -----

  ghost predicate HasUniqueIds(issues: seq<Issue>)
  {
    forall a, b | a in issues && b in issues && a.id == b.id :: a == b
  }

  /** With unique ids the choice is determined, and permuting the input does not change it. */
  lemma ChoiceIgnoresOrder(issues: seq<Issue>, issues': seq<Issue>, constraints: Constraints, unclosed: set<string>,
                           chosen: Option<TaskMatch>, chosen': Option<TaskMatch>)
    requires multiset(issues) == multiset(issues') && HasUniqueIds(issues)
    requires IsChoice(Matches(issues, constraints, unclosed), chosen)
    requires IsChoice(Matches(issues', constraints, unclosed), chosen')
    ensures chosen == chosen'
  {
    forall m: TaskMatch
      ensures m in Matches(issues, constraints, unclosed) <==> m in Matches(issues', constraints, unclosed)
    {
      MatchesAreTheEligible(issues, constraints, unclosed, m);
      MatchesAreTheEligible(issues', constraints, unclosed, m);
      assert m.issue in issues <==> m.issue in multiset(issues);
      assert m.issue in issues' <==> m.issue in multiset(issues');
    }
    if chosen.Some? && chosen'.Some? {
      var (m, m') := (chosen.value, chosen'.value);
      MatchesAreTheEligible(issues, constraints, unclosed, m);
      MatchesAreTheEligible(issues, constraints, unclosed, m');
      StringLessIsTotal(m.issue.id, m'.issue.id);
    }
  }

  // ----- Read off the fields -----

  /** The places of the role's list whose skills are among the labels. */
  function MatchedSkills(labels: seq<string>, skills: seq<string>): set<nat>
  {
    Places(skills, (skill: string) => skill in labels)
  }

  lemma {:induction false} SkillMatchesCount(labels: seq<string>, skills: seq<string>)
    ensures SkillMatches(labels, skills) == |MatchedSkills(labels, skills)|
  {
    if skills == [] {
      PlacesOfNothing(skills, (skill: string) => skill in labels);
    } else {
      SkillMatchesCount(labels, skills[..|skills| - 1]);
      OneMorePlace(skills, (skill: string) => skill in labels);
    }
  }

  /** A dependency of a blocking kind on an issue that is not closed. */
  predicate IsBlocked(issue: Issue, unclosed: set<string>)
  {
    exists dep | dep in issue.dependencies ::
      dep.kind in {"blocks", "parent-child", "conditional-blocks", "waits-for"} && dep.dependsOn in unclosed
  }

  predicate IsDesigned(issue: Issue) { issue.design != "" && "needs-revision" !in issue.labels }

  /**
   An issue is eligible if and only if it is open and no epic, nothing blocks it, it is within the cap, and
   it has a design that needs no revision, or the filter asks for the opposite or for no such thing.
   */
  lemma EligibleIff(issue: Issue, constraints: Constraints, unclosed: set<string>)
    ensures IsEligible(issue, constraints, unclosed) <==>
            && issue.status == "open" && issue.issueType != "epic" && !IsBlocked(issue, unclosed)
            && (constraints.maxPriority == None || issue.priority <= constraints.maxPriority.value)
            && (if constraints.taskFilter == "needs_plan" then !IsDesigned(issue)
                else constraints.taskFilter == "any" || IsDesigned(issue))
  {
    assert HasUnclosedBlockers(issue, unclosed) <==> IsBlocked(issue, unclosed);
  }

  /** The score of an eligible issue: 10 when the role has skills and none of them is asked for. */
  lemma ScoreOfEligible(issue: Issue, constraints: Constraints, unclosed: set<string>)
    requires IsEligible(issue, constraints, unclosed)
    requires -INT64_LIMIT <= issue.priority < INT64_LIMIT && BonusIsExact(issue.priority)
    ensures var n := |MatchedSkills(issue.labels, constraints.skills)|;
            Score(issue, constraints, unclosed) ==
            if constraints.skills != [] && n == 0 then 10
            else 100 + 50 * n + Max(0, Min(20, 20 - 4 * issue.priority))
  {
    SkillMatchesCount(issue.labels, constraints.skills);
    BonusIsClampedIff(issue.priority);
  }
}
