/** Which pending stories may start, and what it means for a run to be deadlocked. */
module Scheduling {
  import opened Wrappers
  import opened Graph
  import opened Complexity
  import opened ControllerState
  import StoryPlanning

  // ---------------------------------------------------------------- agent capacity

  /** Every agent holds a slot until it is closed. */
  predicate OccupiesAgentCapacity(status: AgentStatus) {
    status != AgentStatus.Closed
  }

  function CountOccupiedAgentSlots(agents: seq<AgentState>): nat {
    if agents == [] then 0
    else CountOccupiedAgentSlots(agents[..|agents| - 1])
         + (if OccupiesAgentCapacity(agents[|agents| - 1].status) then 1 else 0)
  }

  function AvailableSlots(mode: ComplexityMode, occupied: nat): nat {
    if occupied < MaximumAgents(mode) then MaximumAgents(mode) - occupied else 0
  }

  function AtLeastOne(n: int): nat {
    if n > 1 then n else 1
  }

  /** Story slots leave room for the Project Manager and one reviewer. */
  function StoryConcurrencyCap(mode: ComplexityMode): (cap: nat)
    ensures 1 <= cap <= MaximumAgents(mode) - 2
  {
    AtLeastOne(MaximumAgents(mode) - 2)
  }

  // ---------------------------------------------------------------- the decision

  datatype StorySchedulingStatus = Pending | Running | Done | Failed

  datatype SchedulableStory = SchedulableStory(
    id: string, dependencies: seq<string>, status: StorySchedulingStatus)

  datatype SchedulingError =
    | InvalidConcurrency
    | DuplicateStory(id: string)
    | UnknownDependency(id: string, dependency: string)

  datatype SchedulingDecision = SchedulingDecision(
    startable: seq<string>, blocked: seq<string>, runningCount: nat, capacity: nat, deadlocked: bool)

  type Statuses = map<string, StorySchedulingStatus>

  function Ids(stories: seq<SchedulableStory>): (ids: seq<string>)
    ensures |ids| == |stories|
    ensures forall i :: 0 <= i < |ids| ==> ids[i] == stories[i].id
  {
    seq(|stories|, i requires 0 <= i < |stories| => stories[i].id)
  }

  predicate Schedulable(stories: seq<SchedulableStory>) {
    && Distinct(Ids(stories))
    && forall i :: 0 <= i < |stories| ==> forall d | d in stories[i].dependencies :: d in Ids(stories)
  }

  /** The status map after the given stories have been entered into it. */
  function StatusesOf(stories: seq<SchedulableStory>): Statuses {
    if stories == [] then map[]
    else
      var last := stories[|stories| - 1];
      StatusesOf(stories[..|stories| - 1])[last.id := last.status]
  }

  predicate HasStatus(statuses: Statuses, id: string, status: StorySchedulingStatus) {
    id in statuses && statuses[id] == status
  }

  predicate IsBlocked(story: SchedulableStory, statuses: Statuses) {
    && story.status == Pending
    && exists d | d in story.dependencies :: HasStatus(statuses, d, StorySchedulingStatus.Failed)
  }

  predicate IsReady(story: SchedulableStory, statuses: Statuses) {
    story.status == Pending && forall d | d in story.dependencies :: HasStatus(statuses, d, Done)
  }

  function ReadyIds(stories: seq<SchedulableStory>, statuses: Statuses): seq<string> {
    if stories == [] then []
    else
      var last := stories[|stories| - 1];
      ReadyIds(stories[..|stories| - 1], statuses) + (if IsReady(last, statuses) then [last.id] else [])
  }

  function BlockedIds(stories: seq<SchedulableStory>, statuses: Statuses): seq<string> {
    if stories == [] then []
    else
      var last := stories[|stories| - 1];
      BlockedIds(stories[..|stories| - 1], statuses) + (if IsBlocked(last, statuses) then [last.id] else [])
  }

  function Count(stories: seq<SchedulableStory>, status: StorySchedulingStatus): nat {
    if stories == [] then 0
    else Count(stories[..|stories| - 1], status) + (if stories[|stories| - 1].status == status then 1 else 0)
  }

  function Take(ids: seq<string>, n: int): seq<string> {
    if n <= 0 then [] else if n >= |ids| then ids else ids[..n]
  }

  function Capacity(stories: seq<SchedulableStory>, maxConcurrent: int): nat {
    if Count(stories, Running) < maxConcurrent then maxConcurrent - Count(stories, Running) else 0
  }

  function StartableIds(stories: seq<SchedulableStory>, maxConcurrent: int): seq<string> {
    Take(ReadyIds(stories, StatusesOf(stories)), Capacity(stories, maxConcurrent))
  }

  predicate IsDeadlocked(stories: seq<SchedulableStory>, maxConcurrent: int) {
    && (exists story | story in stories :: story.status == Pending)
    && Count(stories, Running) == 0
    && StartableIds(stories, maxConcurrent) == []
  }

  method BuildStatuses(stories: seq<SchedulableStory>) returns (r: Result<Statuses, SchedulingError>)
    ensures r.Ok? <==> Distinct(Ids(stories))
    ensures r.Ok? ==> r.value == StatusesOf(stories)
  {
    var statuses: Statuses := map[];
    for i := 0 to |stories|
      invariant statuses == StatusesOf(stories[..i])
      invariant Distinct(Ids(stories[..i]))
    {
      StatusKeys(stories[..i]);
      assert stories[..i + 1][..i] == stories[..i];
      if stories[i].id in statuses {
        var k := IndexOf(Ids(stories[..i]), stories[i].id);
        assert Ids(stories)[k] == Ids(stories)[i];
        return Err(DuplicateStory(stories[i].id));
      }
      statuses := statuses[stories[i].id := stories[i].status];
    }
    assert stories[..|stories|] == stories;
    return Ok(statuses);
  }

  method CheckDependencies(story: SchedulableStory, statuses: Statuses) returns (r: Result<bool, SchedulingError>)
    ensures r.Ok? <==> forall d | d in story.dependencies :: d in statuses
  {
    for k := 0 to |story.dependencies|
      invariant forall j :: 0 <= j < k ==> story.dependencies[j] in statuses
    {
      if story.dependencies[k] !in statuses {
        return Err(UnknownDependency(story.id, story.dependencies[k]));
      }
    }
    return Ok(true);
  }

  /** The scheduling decision, computed in the order of the input list. */
  method ScheduleStories(stories: seq<SchedulableStory>, maxConcurrent: int)
    returns (r: Result<SchedulingDecision, SchedulingError>)
    ensures r.Ok? <==> maxConcurrent >= 1 && Schedulable(stories)
    ensures r.Ok? ==>
      && r.value.startable == StartableIds(stories, maxConcurrent)
      && r.value.blocked == BlockedIds(stories, StatusesOf(stories))
      && r.value.runningCount == Count(stories, Running)
      && r.value.capacity == Capacity(stories, maxConcurrent)
      && r.value.deadlocked == IsDeadlocked(stories, maxConcurrent)
  {
    if maxConcurrent < 1 {
      return Err(InvalidConcurrency);
    }
    var statuses :- BuildStatuses(stories);
    StatusKeys(stories);
    for i := 0 to |stories|
      invariant forall k :: 0 <= k < i ==> forall d | d in stories[k].dependencies :: d in statuses
    {
      var _ :- CheckDependencies(stories[i], statuses);
    }
    var running, blocked, ready := SortStories(stories, statuses);
    var capacity := if running < maxConcurrent then maxConcurrent - running else 0;
    var startable := Take(ready, capacity);
    var pendingRemain := exists story | story in stories :: story.status == Pending;
    return Ok(SchedulingDecision(startable, blocked, running, capacity,
                                 pendingRemain && running == 0 && startable == []));
  }

  /** Count the running stories, and list the blocked and the ready ones in input order. */
  method SortStories(stories: seq<SchedulableStory>, statuses: Statuses)
    returns (running: nat, blocked: seq<string>, ready: seq<string>)
    ensures running == Count(stories, Running)
    ensures blocked == BlockedIds(stories, statuses) && ready == ReadyIds(stories, statuses)
  {
    running, blocked, ready := 0, [], [];
    for i := 0 to |stories|
      invariant running == Count(stories[..i], Running)
      invariant blocked == BlockedIds(stories[..i], statuses)
      invariant ready == ReadyIds(stories[..i], statuses)
    {
      var story := stories[i];
      assert stories[..i + 1][..i] == stories[..i];
      if story.status == Running {
        running := running + 1;
      }
      if story.status == Pending {
        if exists d | d in story.dependencies :: HasStatus(statuses, d, StorySchedulingStatus.Failed) {
          blocked := blocked + [story.id];
        } else if forall d | d in story.dependencies :: HasStatus(statuses, d, Done) {
          ready := ready + [story.id];
        }
      }
    }
    assert stories[..|stories|] == stories;
  }

  // ---------------------------------------------------------------- lookup facts

  lemma {:induction false} StatusKeys(stories: seq<SchedulableStory>)
    ensures forall id :: id in StatusesOf(stories) <==> id in Ids(stories)
  {
    if stories != [] {
      var init, last := stories[..|stories| - 1], stories[|stories| - 1];
      StatusKeys(init);
      assert Ids(stories) == Ids(init) + [last.id];
    }
  }

  lemma {:induction false} StatusAt(stories: seq<SchedulableStory>, i: nat)
    requires Distinct(Ids(stories)) && i < |stories|
    ensures HasStatus(StatusesOf(stories), stories[i].id, stories[i].status)
  {
    var init, last := stories[..|stories| - 1], stories[|stories| - 1];
    if i < |init| {
      assert Ids(stories)[i] != Ids(stories)[|init|];
      assert Distinct(Ids(init)) by {
        forall a, b | 0 <= a < b < |init| ensures Ids(init)[a] != Ids(init)[b] {
          assert Ids(stories)[a] != Ids(stories)[b];
        }
      }
      StatusAt(init, i);
    }
  }

  /** The story with a given id, and its recorded status. */
  lemma StoryOf(stories: seq<SchedulableStory>, id: string) returns (i: nat)
    requires Distinct(Ids(stories)) && id in Ids(stories)
    ensures i < |stories| && stories[i].id == id && HasStatus(StatusesOf(stories), id, stories[i].status)
  {
    i := IndexOf(Ids(stories), id);
    StatusAt(stories, i);
  }

  lemma {:induction false} ReadyMembers(stories: seq<SchedulableStory>, statuses: Statuses)
    ensures forall id :: id in ReadyIds(stories, statuses) <==>
                         exists i :: 0 <= i < |stories| && stories[i].id == id && IsReady(stories[i], statuses)
  {
    if stories != [] {
      var init, last := stories[..|stories| - 1], stories[|stories| - 1];
      ReadyMembers(init, statuses);
      forall id ensures id in ReadyIds(stories, statuses) <==>
                        exists i :: 0 <= i < |stories| && stories[i].id == id && IsReady(stories[i], statuses) {
        if id in ReadyIds(init, statuses) {
          var i :| 0 <= i < |init| && init[i].id == id && IsReady(init[i], statuses);
          assert stories[i] == init[i];
        }
        if i :| 0 <= i < |stories| && stories[i].id == id && IsReady(stories[i], statuses) {
          if i < |init| {
            assert init[i] == stories[i];
          }
        }
      }
    }
  }

  lemma {:induction false} NoneCounted(stories: seq<SchedulableStory>, status: StorySchedulingStatus)
    ensures Count(stories, status) <= |stories|
    ensures Count(stories, status) == 0 <==> forall i :: 0 <= i < |stories| ==> stories[i].status != status
  {
    if stories != [] {
      var init := stories[..|stories| - 1];
      NoneCounted(init, status);
      assert forall i :: 0 <= i < |init| ==> init[i] == stories[i];
      if Count(stories, status) == 0 {
        forall i | 0 <= i < |stories| ensures stories[i].status != status {
          if i < |init| {
            assert init[i].status != status;
          }
        }
      }
    }
  }

  // ---------------------------------------------------------------- deadlock

  ghost function GraphOf(stories: seq<SchedulableStory>): Graph {
    map id | id in Ids(stories) :: stories[IndexOf(Ids(stories), id)].dependencies
  }

  /** A walk along dependencies that passes only pending stories and ends in a failed one. */
  ghost predicate LeadsToFailure(stories: seq<SchedulableStory>, w: seq<string>) {
    && |w| >= 2
    && IsWalk(GraphOf(stories), w)
    && (forall k :: 0 <= k < |w| - 1 ==> HasStatus(StatusesOf(stories), w[k], Pending))
    && HasStatus(StatusesOf(stories), w[|w| - 1], StorySchedulingStatus.Failed)
  }

  ghost predicate DependsOnFailure(stories: seq<SchedulableStory>, id: string) {
    exists w :: LeadsToFailure(stories, w) && w[0] == id
  }

  ghost predicate EveryPendingDependsOnFailure(stories: seq<SchedulableStory>) {
    forall i :: 0 <= i < |stories| && stories[i].status == Pending ==> DependsOnFailure(stories, stories[i].id)
  }

  ghost predicate NothingReady(stories: seq<SchedulableStory>) {
    forall i :: 0 <= i < |stories| ==> !IsReady(stories[i], StatusesOf(stories))
  }

  lemma StartableEmptyIffNothingReady(stories: seq<SchedulableStory>, maxConcurrent: int)
    requires maxConcurrent >= 1 && Count(stories, Running) == 0
    ensures StartableIds(stories, maxConcurrent) == [] <==> NothingReady(stories)
  {
    var ready := ReadyIds(stories, StatusesOf(stories));
    ReadyMembers(stories, StatusesOf(stories));
    assert Capacity(stories, maxConcurrent) == maxConcurrent;
    if ready != [] {
      assert ready[0] in ready;
    }
    if !NothingReady(stories) {
      var i :| 0 <= i < |stories| && IsReady(stories[i], StatusesOf(stories));
      assert stories[i].id in ready;
    }
  }

  lemma FailureExcludesReady(stories: seq<SchedulableStory>, i: nat)
    requires Schedulable(stories) && i < |stories| && DependsOnFailure(stories, stories[i].id)
    ensures !IsReady(stories[i], StatusesOf(stories))
  {
    var w :| LeadsToFailure(stories, w) && w[0] == stories[i].id;
    assert Edge(GraphOf(stories), w[0], w[1]);
    StoryPlanning.DistinctIndex(Ids(stories), i);
    assert w[1] in stories[i].dependencies;
    assert !HasStatus(StatusesOf(stories), w[1], Done);
  }

  /** A pending story that is not ready, when nothing runs, waits on a pending or failed story. */
  lemma WaitsOn(stories: seq<SchedulableStory>, i: nat) returns (d: string)
    requires Schedulable(stories) && Count(stories, Running) == 0 && NothingReady(stories)
    requires i < |stories| && stories[i].status == Pending
    ensures Edge(GraphOf(stories), stories[i].id, d)
    ensures || HasStatus(StatusesOf(stories), d, Pending)
            || HasStatus(StatusesOf(stories), d, StorySchedulingStatus.Failed)
  {
    NoneCounted(stories, Running);
    StoryPlanning.DistinctIndex(Ids(stories), i);
    d :| d in stories[i].dependencies && !HasStatus(StatusesOf(stories), d, Done);
    var k := StoryOf(stories, d);
  }

  /** The pending stories that reach no failure. */
  ghost function Lost(stories: seq<SchedulableStory>): set<string> {
    set id | id in Ids(stories) && HasStatus(StatusesOf(stories), id, Pending) && !DependsOnFailure(stories, id)
  }

  lemma FailureExtends(stories: seq<SchedulableStory>, id: string, d: string)
    requires Edge(GraphOf(stories), id, d) && HasStatus(StatusesOf(stories), id, Pending)
    requires HasStatus(StatusesOf(stories), d, StorySchedulingStatus.Failed) || DependsOnFailure(stories, d)
    ensures DependsOnFailure(stories, id)
  {
    if HasStatus(StatusesOf(stories), d, StorySchedulingStatus.Failed) {
      assert LeadsToFailure(stories, [id, d]);
    } else {
      var w :| LeadsToFailure(stories, w) && w[0] == d;
      var longer := [id] + w;
      forall k | 0 <= k < |longer| - 1 ensures Edge(GraphOf(stories), longer[k], longer[k + 1]) {
        if k > 0 {
          assert Edge(GraphOf(stories), w[k - 1], w[k]);
        }
      }
      assert LeadsToFailure(stories, longer);
    }
  }

  lemma LostWaitsOnLost(stories: seq<SchedulableStory>, id: string)
    requires Schedulable(stories) && Count(stories, Running) == 0 && NothingReady(stories)
    requires id in Lost(stories)
    ensures HasSuccessorIn(GraphOf(stories), Lost(stories), id)
  {
    var i := StoryOf(stories, id);
    var d := WaitsOn(stories, i);
    StatusKeys(stories);
    if HasStatus(StatusesOf(stories), d, StorySchedulingStatus.Failed) || DependsOnFailure(stories, d) {
      FailureExtends(stories, id, d);
    }
    assert d in Lost(stories);
  }

  lemma NothingIsLost(stories: seq<SchedulableStory>)
    requires Schedulable(stories) && Count(stories, Running) == 0 && NothingReady(stories)
    requires Acyclic(GraphOf(stories))
    ensures Lost(stories) == {}
  {
    var g, lost := GraphOf(stories), Lost(stories);
    if lost != {} {
      assert Stuck(g, lost) by {
        forall id {:trigger HasSuccessorIn(g, lost, id)} | id in lost ensures HasSuccessorIn(g, lost, id) {
          LostWaitsOnLost(stories, id);
        }
      }
      StuckSetHasCycle(g, lost);
    }
  }

  lemma StuckPendingDependsOnFailure(stories: seq<SchedulableStory>)
    requires Schedulable(stories) && Count(stories, Running) == 0 && NothingReady(stories)
    requires Acyclic(GraphOf(stories))
    ensures EveryPendingDependsOnFailure(stories)
  {
    NothingIsLost(stories);
    forall i | 0 <= i < |stories| && stories[i].status == Pending
      ensures DependsOnFailure(stories, stories[i].id)
    {
      StatusAt(stories, i);
      assert Ids(stories)[i] in Ids(stories);
      assert stories[i].id !in Lost(stories);
    }
  }

  /**
   With acyclic dependencies, pending work and nothing running, a run is
   deadlocked exactly when every pending story reaches a failed story through
   pending ones.
   */
  lemma DeadlockedIffFailureReached(stories: seq<SchedulableStory>, maxConcurrent: int)
    requires maxConcurrent >= 1 && Schedulable(stories) && Acyclic(GraphOf(stories))
    requires Count(stories, Running) == 0
    requires exists story | story in stories :: story.status == Pending
    ensures IsDeadlocked(stories, maxConcurrent) <==> EveryPendingDependsOnFailure(stories)
  {
    StartableEmptyIffNothingReady(stories, maxConcurrent);
    if NothingReady(stories) {
      StuckPendingDependsOnFailure(stories);
    } else {
      var i :| 0 <= i < |stories| && IsReady(stories[i], StatusesOf(stories));
      if DependsOnFailure(stories, stories[i].id) {
        FailureExcludesReady(stories, i);
      }
    }
  }

  // ---------------------------------------------------------------- rounds of work

  function FinishStory(story: SchedulableStory, finished: seq<string>): SchedulableStory {
    if story.id in finished then story.(status := Done) else story
  }

  /** Start everything that may start, and finish it. */
  function Round(stories: seq<SchedulableStory>, maxConcurrent: int): (after: seq<SchedulableStory>)
    ensures |after| == |stories|
  {
    var finished := StartableIds(stories, maxConcurrent);
    seq(|stories|, i requires 0 <= i < |stories| => FinishStory(stories[i], finished))
  }

  function Rounds(stories: seq<SchedulableStory>, maxConcurrent: int, n: nat): (after: seq<SchedulableStory>)
    ensures |after| == |stories|
    decreases n
  {
    if n == 0 then stories else Rounds(Round(stories, maxConcurrent), maxConcurrent, n - 1)
  }

  ghost predicate AllDone(stories: seq<SchedulableStory>) {
    forall i :: 0 <= i < |stories| ==> stories[i].status == Done
  }

  ghost predicate OnlyPendingOrDone(stories: seq<SchedulableStory>) {
    forall i :: 0 <= i < |stories| ==> stories[i].status in {Pending, Done}
  }

  lemma RoundKeepsGraph(stories: seq<SchedulableStory>, maxConcurrent: int)
    ensures var after := Round(stories, maxConcurrent);
      Ids(after) == Ids(stories) && GraphOf(after) == GraphOf(stories)
  {
    var after := Round(stories, maxConcurrent);
    assert Ids(after) == Ids(stories);
  }

  lemma {:induction false} CountDrops(before: seq<SchedulableStory>, after: seq<SchedulableStory>,
                                     status: StorySchedulingStatus, drop: nat)
    requires |before| == |after| && drop < |before|
    requires forall i :: 0 <= i < |before| && after[i].status == status ==> before[i].status == status
    requires before[drop].status == status && after[drop].status != status
    ensures Count(after, status) < Count(before, status)
  {
    var n := |before| - 1;
    assert before[..n][..] == before[..n] && after[..n][..] == after[..n];
    if drop < n {
      CountDrops(before[..n], after[..n], status, drop);
    } else {
      CountAtMost(before[..n], after[..n], status);
    }
  }

  lemma {:induction false} CountAtMost(before: seq<SchedulableStory>, after: seq<SchedulableStory>,
                                      status: StorySchedulingStatus)
    requires |before| == |after|
    requires forall i :: 0 <= i < |before| && after[i].status == status ==> before[i].status == status
    ensures Count(after, status) <= Count(before, status)
  {
    if before != [] {
      var n := |before| - 1;
      CountAtMost(before[..n], after[..n], status);
    }
  }

  lemma NothingFailed(stories: seq<SchedulableStory>, id: string)
    requires Schedulable(stories) && OnlyPendingOrDone(stories)
    ensures !HasStatus(StatusesOf(stories), id, StorySchedulingStatus.Failed)
  {
    StatusKeys(stories);
    if id in Ids(stories) {
      var k := StoryOf(stories, id);
      assert stories[k] in stories;
    }
  }

  /** Without failures there is no path to one. */
  lemma NoFailureReached(stories: seq<SchedulableStory>, id: string)
    requires Schedulable(stories) && OnlyPendingOrDone(stories)
    ensures !DependsOnFailure(stories, id)
  {
    forall last ensures !HasStatus(StatusesOf(stories), last, StorySchedulingStatus.Failed) {
      NothingFailed(stories, last);
    }
  }

  lemma SomethingStarts(stories: seq<SchedulableStory>, maxConcurrent: int)
    requires maxConcurrent >= 1 && Schedulable(stories) && Acyclic(GraphOf(stories))
    requires OnlyPendingOrDone(stories) && !AllDone(stories)
    ensures StartableIds(stories, maxConcurrent) != []
  {
    var p :| 0 <= p < |stories| && stories[p].status != Done;
    NoneCounted(stories, Running);
    assert stories[p] in stories && stories[p].status == Pending;
    DeadlockedIffFailureReached(stories, maxConcurrent);
    NoFailureReached(stories, stories[p].id);
  }

  /** While work is pending and nothing has failed, a round finishes at least one story. */
  lemma RoundAdvances(stories: seq<SchedulableStory>, maxConcurrent: int)
    requires maxConcurrent >= 1 && Schedulable(stories) && Acyclic(GraphOf(stories))
    requires OnlyPendingOrDone(stories) && !AllDone(stories)
    ensures Count(Round(stories, maxConcurrent), Pending) < Count(stories, Pending)
  {
    SomethingStarts(stories, maxConcurrent);
    var started := StartableIds(stories, maxConcurrent);
    ReadyMembers(stories, StatusesOf(stories));
    assert started[0] in ReadyIds(stories, StatusesOf(stories));
    var i :| 0 <= i < |stories| && stories[i].id == started[0] && IsReady(stories[i], StatusesOf(stories));
    CountDrops(stories, Round(stories, maxConcurrent), Pending, i);
  }

  lemma {:induction false} RoundsComplete(stories: seq<SchedulableStory>, maxConcurrent: int, n: nat)
    requires maxConcurrent >= 1 && Schedulable(stories) && Acyclic(GraphOf(stories))
    requires OnlyPendingOrDone(stories) && n >= Count(stories, Pending)
    ensures AllDone(Rounds(stories, maxConcurrent, n))
    decreases n
  {
    if n == 0 {
      NoneCounted(stories, Pending);
    } else {
      var after := Round(stories, maxConcurrent);
      RoundKeepsGraph(stories, maxConcurrent);
      if AllDone(stories) {
        NoneCounted(stories, Pending);
        NoneCounted(after, Pending);
      } else {
        RoundAdvances(stories, maxConcurrent);
      }
      RoundsComplete(after, maxConcurrent, n - 1);
    }
  }

  /** The stories of a plan before any of them starts. */
  function FromPlan(plan: seq<StoryPlanning.UserStory>): (stories: seq<SchedulableStory>)
    ensures |stories| == |plan|
  {
    seq(|plan|, i requires 0 <= i < |plan| => SchedulableStory(plan[i].id, plan[i].dependencies, Pending))
  }

  lemma FromPlanIsSchedulable(plan: seq<StoryPlanning.UserStory>)
    requires StoryPlanning.Validated(plan)
    ensures Ids(FromPlan(plan)) == StoryPlanning.Ids(plan) && Schedulable(FromPlan(plan))
  {
    var stories := FromPlan(plan);
    assert Ids(stories) == StoryPlanning.Ids(plan);
    forall i | 0 <= i < |stories| ensures forall d | d in stories[i].dependencies :: d in Ids(stories) {
      assert plan[i] in plan;
    }
  }

  lemma FromPlanGraph(plan: seq<StoryPlanning.UserStory>)
    requires Ids(FromPlan(plan)) == StoryPlanning.Ids(plan)
    ensures GraphOf(FromPlan(plan)) == StoryPlanning.GraphOf(plan)
  {
  }

  /**
   Every plan that validation accepts is finished, whatever the concurrency
   limit, by at most one round per story.
   */
  lemma AcceptedPlanCompletes(plan: seq<StoryPlanning.UserStory>, maxConcurrent: int)
    requires maxConcurrent >= 1 && StoryPlanning.Acceptable(plan) && Acyclic(StoryPlanning.GraphOf(plan))
    ensures AllDone(Rounds(FromPlan(plan), maxConcurrent, |plan|))
  {
    FromPlanIsSchedulable(plan);
    FromPlanGraph(plan);
    NoneCounted(FromPlan(plan), Pending);
    RoundsComplete(FromPlan(plan), maxConcurrent, |plan|);
  }
}
