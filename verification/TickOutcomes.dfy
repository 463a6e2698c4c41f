/**
 What a tick asks for, read off the stored stories and agents alone: which story
 is merged, cleaned up, reviewed or started, when the team is completed, and when
 the run is left alone.
 */
module TickOutcomes {
  import opened Wrappers
  import opened Graph
  import opened Complexity
  import opened ControllerState
  import opened Scheduling
  import opened Orchestration
  import opened OrchestrationEffects
  import opened OrchestrationLoop
  import opened DrainQuiescence

  // ---------------------------------------------------------------- stories that are far enough

  ghost predicate AgentIs(agents: seq<AgentState>, id: Option<string>, status: AgentStatus) {
    id.Some? && exists agent :: agent in agents && agent.id == id.value && agent.status == status
  }

  lemma ClosedReviewer(story: StoryState, agents: seq<AgentState>)
    requires Distinct(AgentIds(agents))
    ensures ReviewerClosed(story, agents) <==> AgentIs(agents, story.reviewerAgentId, AgentStatus.Closed)
  {
    if AgentIs(agents, story.reviewerAgentId, AgentStatus.Closed) {
      var agent :| agent in agents && agent.id == story.reviewerAgentId.value && agent.status == AgentStatus.Closed;
      var i: nat :| i < |agents| && agents[i] == agent;
      FindAt(agents, i);
    }
  }

  /** A tick requests a merge exactly for the approved stories whose reviewer has closed. */
  lemma MergeRequestedIff(s: Snapshot, config: LoopConfig, confirmed: set<string>, id: string)
    requires Distinct(AgentIds(s.agents))
    ensures RequestMerge(id) in AdmittedActions(s, config, confirmed) <==>
            exists story :: story in s.stories && story.id == id && story.status == StoryStatus.Approved
                            && AgentIs(s.agents, story.reviewerAgentId, AgentStatus.Closed)
  {
    var stories := Project(s, config.dependencies);
    AdmittedUnlessLaunch(s, config, confirmed, RequestMerge(id));
    forall i | 0 <= i < |s.stories|
      ensures HasNeed(stories[i], Merge) <==>
              s.stories[i].status == StoryStatus.Approved
              && AgentIs(s.agents, s.stories[i].reviewerAgentId, AgentStatus.Closed)
    {
      ClosedReviewer(s.stories[i], s.agents);
    }
    assert forall i :: 0 <= i < |s.stories| ==> s.stories[i] in s.stories && stories[i].id == s.stories[i].id;
  }

  /** A tick requests a cleanup exactly for the merged stories that still have their workspace. */
  lemma CleanupRequestedIff(s: Snapshot, config: LoopConfig, confirmed: set<string>, id: string)
    ensures RequestCleanup(id) in AdmittedActions(s, config, confirmed) <==>
            exists story :: story in s.stories && story.id == id
                            && story.status == StoryStatus.Merged && !story.workspaceCleaned
  {
    var stories := Project(s, config.dependencies);
    AdmittedUnlessLaunch(s, config, confirmed, RequestCleanup(id));
    assert forall i :: 0 <= i < |s.stories| ==> s.stories[i] in s.stories && stories[i].id == s.stories[i].id;
    assert forall i :: 0 <= i < |s.stories| ==>
      (HasNeed(stories[i], Cleanup) <==> s.stories[i].status == StoryStatus.Merged && !s.stories[i].workspaceCleaned);
  }

  /** A review is wanted exactly for the stories that await one and have no reviewer yet. */
  lemma ReviewerWantedIff(s: Snapshot, config: LoopConfig, id: string)
    ensures AssignReviewer(id) in NeededActions(Project(s, config.dependencies), s.run.complexity) <==>
            exists story :: story in s.stories && story.id == id
                            && story.status == StoryStatus.AwaitingReview && story.reviewerAgentId.None?
  {
    var stories := Project(s, config.dependencies);
    NeededIffWarranted(stories, s.run.complexity, AssignReviewer(id));
    assert forall i :: 0 <= i < |s.stories| ==> s.stories[i] in s.stories && stories[i].id == s.stories[i].id;
    assert forall i :: 0 <= i < |s.stories| ==>
      (HasNeed(stories[i], Reviewer) <==>
         s.stories[i].status == StoryStatus.AwaitingReview && s.stories[i].reviewerAgentId.None?);
  }

  /** A tick completes the run exactly when there are stories and all of them are merged. */
  lemma CompletionRequestedIff(s: Snapshot, config: LoopConfig, confirmed: set<string>)
    ensures CompleteRun in AdmittedActions(s, config, confirmed) <==>
            s.stories != [] && forall story :: story in s.stories ==> story.status == StoryStatus.Merged
  {
    CompletesIffMerged(s, config, confirmed);
  }

  // ---------------------------------------------------------------- stories that start

  /** Every dependency of the story is a merged story. */
  ghost predicate DependenciesMerged(s: Snapshot, config: LoopConfig, story: StoryState) {
    forall d :: d in DependenciesOf(config.dependencies, story.id) ==>
      exists other :: other in s.stories && other.id == d && other.status == StoryStatus.Merged
  }

  ghost predicate MayStart(s: Snapshot, config: LoopConfig, story: StoryState) {
    story.status in {StoryStatus.Ready, StoryStatus.ChangesRequested} && DependenciesMerged(s, config, story)
  }

  /** The stories of the first n that may start, in order. */
  ghost function MayStartIds(s: Snapshot, config: LoopConfig, n: nat): seq<string>
    requires n <= |s.stories|
  {
    if n == 0 then []
    else MayStartIds(s, config, n - 1) + if MayStart(s, config, s.stories[n - 1]) then [s.stories[n - 1].id] else []
  }

  /** Merged, failed and blocked stories take no place, nor do those that have still to start. */
  predicate TakesPlace(status: StoryStatus) {
    status !in {StoryStatus.Merged, StoryStatus.Failed, StoryStatus.Blocked, StoryStatus.Ready,
                StoryStatus.ChangesRequested}
  }

  /** How many of the first n stories take a place. */
  function PlacesTaken(stories: seq<StoryState>, n: nat): nat
    requires n <= |stories|
  {
    if n == 0 then 0 else PlacesTaken(stories, n - 1) + if TakesPlace(stories[n - 1].status) then 1 else 0
  }

  lemma SameIdSameStory(stories: seq<StoryState>, a: StoryState, b: StoryState)
    requires Distinct(StoryIds(stories)) && a in stories && b in stories && a.id == b.id
    ensures a == b
  {
    var i :| 0 <= i < |stories| && stories[i] == a;
    var j :| 0 <= j < |stories| && stories[j] == b;
    assert StoryIds(stories)[i] == StoryIds(stories)[j];
  }

  lemma MergedIsDone(s: Snapshot, config: LoopConfig, d: string)
    requires Distinct(StoryIds(s.stories))
    ensures HasStatus(StatusesOf(Schedulables(Project(s, config.dependencies))), d, Done) <==>
            exists other :: other in s.stories && other.id == d && other.status == StoryStatus.Merged
  {
    var schedulables := Schedulables(Project(s, config.dependencies));
    assert Scheduling.Ids(schedulables) == StoryIds(s.stories);
    StatusKeys(schedulables);
    if d in Scheduling.Ids(schedulables) {
      var k := StoryOf(schedulables, d);
      assert s.stories[k] in s.stories && s.stories[k].id == d;
      forall other | other in s.stories && other.id == d ensures other == s.stories[k] {
        SameIdSameStory(s.stories, other, s.stories[k]);
      }
    } else {
      forall other | other in s.stories ensures other.id != d {
        var j :| 0 <= j < |s.stories| && s.stories[j] == other;
        assert StoryIds(s.stories)[j] == other.id;
      }
    }
  }

  lemma ReadyIffMayStart(s: Snapshot, config: LoopConfig, i: nat)
    requires Distinct(StoryIds(s.stories)) && i < |s.stories|
    ensures var schedulables := Schedulables(Project(s, config.dependencies));
      && |schedulables| == |s.stories| && schedulables[i].id == s.stories[i].id
      && (IsReady(schedulables[i], StatusesOf(schedulables)) <==> MayStart(s, config, s.stories[i]))
      && (schedulables[i].status == Running <==> TakesPlace(s.stories[i].status))
  {
    var schedulables := Schedulables(Project(s, config.dependencies));
    forall d ensures HasStatus(StatusesOf(schedulables), d, Done) <==>
                     exists other :: other in s.stories && other.id == d && other.status == StoryStatus.Merged
    {
      MergedIsDone(s, config, d);
    }
  }

  lemma {:induction false} ReadyInOrder(s: Snapshot, config: LoopConfig, n: nat)
    requires Distinct(StoryIds(s.stories)) && n <= |s.stories|
    ensures var schedulables := Schedulables(Project(s, config.dependencies));
      && |schedulables| == |s.stories|
      && ReadyIds(schedulables[..n], StatusesOf(schedulables)) == MayStartIds(s, config, n)
      && Count(schedulables[..n], Running) == PlacesTaken(s.stories, n)
  {
    var schedulables := Schedulables(Project(s, config.dependencies));
    if n > 0 {
      ReadyInOrder(s, config, n - 1);
      ReadyIffMayStart(s, config, n - 1);
      assert schedulables[..n][..n - 1] == schedulables[..n - 1];
    }
  }

  /** The places that stories in flight leave of a mode's cap. */
  function PlacesLeft(s: Snapshot): nat {
    var cap := StoryConcurrencyCap(s.run.complexity);
    var taken := PlacesTaken(s.stories, |s.stories|);
    if taken < cap then cap - taken else 0
  }

  /** A plan starts the first stories that may start, as many as there are places left for them. */
  lemma StartsTheFirst(s: Snapshot, config: LoopConfig)
    requires Distinct(StoryIds(s.stories))
    ensures var waiting := MayStartIds(s, config, |s.stories|);
      Startable(Project(s, config.dependencies), s.run.complexity)
      == waiting[..Least(|waiting|, PlacesLeft(s))]
  {
    var schedulables := Schedulables(Project(s, config.dependencies));
    ReadyInOrder(s, config, |s.stories|);
    assert schedulables[..|s.stories|] == schedulables;
    var waiting := MayStartIds(s, config, |s.stories|);
    assert waiting[..|waiting|] == waiting;
  }

  lemma {:induction false} MayStartAt(s: Snapshot, config: LoopConfig, n: nat, i: nat)
    requires i < n <= |s.stories| && MayStart(s, config, s.stories[i])
    ensures |MayStartIds(s, config, i)| < |MayStartIds(s, config, n)|
    ensures MayStartIds(s, config, n)[|MayStartIds(s, config, i)|] == s.stories[i].id
  {
    if i < n - 1 {
      MayStartAt(s, config, n - 1, i);
    }
  }

  /** A story that may start is started when fewer stories before it may start than there are places left. */
  lemma StartedWhenPlaced(s: Snapshot, config: LoopConfig, i: nat)
    requires Distinct(StoryIds(s.stories)) && i < |s.stories| && MayStart(s, config, s.stories[i])
    requires |MayStartIds(s, config, i)| < PlacesLeft(s)
    ensures AssignStory(s.stories[i].id) in NeededActions(Project(s, config.dependencies), s.run.complexity)
  {
    StartsTheFirst(s, config);
    MayStartAt(s, config, |s.stories|, i);
    var stories := Project(s, config.dependencies);
    var started := Startable(stories, s.run.complexity);
    assert started[|MayStartIds(s, config, i)|] == s.stories[i].id;
    NeededIffWarranted(stories, s.run.complexity, AssignStory(s.stories[i].id));
  }

  // ---------------------------------------------------------------- the team and the run

  /** Somebody in the role is past launching, or has had the launch confirmed. */
  ghost predicate RoleFilled(s: Snapshot, confirmed: set<string>, role: string) {
    exists agent :: agent in s.agents && agent.roleRuntimeId == role
                    && (agent.status == AgentStatus.Launching ==> agent.id in confirmed)
  }

  /** A team member is wanted for the first story exactly when a team is configured and the role is not filled. */
  lemma TeamWantedIff(s: Snapshot, config: LoopConfig, confirmed: set<string>, a: OrchestrationAction)
    ensures a in TeamActions(s, config.team, confirmed) <==>
            && config.team.Some? && s.stories != []
            && ((a == AssignProjectManager(s.stories[0].id)
                 && !RoleFilled(s, confirmed, config.team.value.projectManagerRole))
                || (a == AssignAdvisor(s.stories[0].id) && config.team.value.advisorRole.Some?
                    && !RoleFilled(s, confirmed, config.team.value.advisorRole.value)))
  {
    forall role ensures HoldsRole(s.agents, confirmed, role) <==> RoleFilled(s, confirmed, role) {
    }
  }

  /** A tick works on a run exactly when it is ready or active; every other run is at rest. */
  lemma RestsUnlessReadyOrActive(s: Snapshot, config: LoopConfig, confirmed: set<string>, env: TickEnv)
    ensures PlanTick(Some(s), config, confirmed, env.now) == Ok(AtRest) <==>
            s.run.status !in {RunStatus.Ready, RunStatus.Active}
    ensures s.run.status !in {RunStatus.Ready, RunStatus.Active} ==>
            Tick(Some(s), config, confirmed, env)
            == TickOutcome(Ok(TickResult([], false)), Some(s), confirmed)
  {
  }

  /** The run a tick works on: a ready run is started first. */
  function StartedRun(run: RunState, now: nat): RunState {
    if run.status == RunStatus.Ready then run.(status := RunStatus.Active, updatedAt := now) else run
  }

  /** A tick on a ready or active run works exactly when its clock and its dependencies allow and something is due. */
  lemma WorksOnStartedRun(s: Snapshot, config: LoopConfig, confirmed: set<string>, now: nat)
    requires s.run.status == RunStatus.Ready || s.run.status == RunStatus.Active
    ensures var started := s.(run := StartedRun(s.run, now));
      var actions := AdmittedActions(started, config, confirmed);
      PlanTick(Some(s), config, confirmed, now) ==
        if s.run.status == RunStatus.Ready && now < s.run.updatedAt
        then Err(LoopError.RunTransition(ClockMovedBackwards))
        else if !CanSchedule(started, config) then Err(Unschedulable)
        else if actions == [] && s.run.status == RunStatus.Active then Ok(NothingToDo)
        else Ok(Work(started, actions))
  {
  }

  /** A launch has the slots that are not held by agents that have yet to close. */
  lemma {:induction false} SlotsAreHeldUntilClosed(agents: seq<AgentState>)
    ensures CountOccupiedAgentSlots(agents) == |Holders(agents)|
  {
    if agents != [] {
      var n := |agents| - 1;
      SlotsAreHeldUntilClosed(agents[..n]);
      assert Holders(agents)
             == if agents[n].status != AgentStatus.Closed then Holders(agents[..n]) + {n} else Holders(agents[..n]);
    }
  }

  /** The places in the list of the agents that have yet to close. */
  ghost function Holders(agents: seq<AgentState>): set<nat> {
    set k: nat | k < |agents| && agents[k].status != AgentStatus.Closed
  }

  /** The first launches within the slots are admitted, and everything else, whatever the list is cut into. */
  lemma {:induction false} AdmitInParts(a: seq<OrchestrationAction>, b: seq<OrchestrationAction>, slots: nat)
    ensures Admit(a + b, slots)
            == Admit(a, slots) + Admit(b, if LaunchCount(a) < slots then slots - LaunchCount(a) else 0)
  {
    if b == [] {
      assert a + b == a;
    } else {
      var init, last := b[..|b| - 1], b[|b| - 1];
      AdmitInParts(a, init, slots);
      assert (a + b)[..|a + b| - 1] == a + init;
      LaunchCountAdds(a, init);
    }
  }

  /** The agents and concurrent stories of each mode. */
  lemma ModeLimits()
    ensures forall occupied: nat :: AvailableSlots(LOW, occupied) == if occupied < 4 then 4 - occupied else 0
    ensures forall occupied: nat :: AvailableSlots(NORMAL, occupied) == if occupied < 8 then 8 - occupied else 0
    ensures forall occupied: nat :: AvailableSlots(HIGH, occupied) == if occupied < 16 then 16 - occupied else 0
    ensures StoryConcurrencyCap(LOW) == 2 && StoryConcurrencyCap(NORMAL) == 6 && StoryConcurrencyCap(HIGH) == 14
  {
  }

  // ---------------------------------------------------------------- what a commit leaves

  /** A tick's commit advances the revision it found by one, and takes run and stories from the tick alone. */
  lemma CommitAdvancesOnce(read: Snapshot, intended: Snapshot, env: TickEnv)
    requires env.latest.Some? ==> env.latest.value.revision >= read.revision
    ensures var commit := CommitTick(read, intended, env);
      && (commit.result == Ok(true) ==>
            && commit.snapshot.run == intended.run && commit.snapshot.stories == intended.stories
            && commit.snapshot.revision == Interfere(read, env.latest).revision + 1)
      && (commit.result == Ok(false) ==> commit.snapshot == Interfere(read, env.latest))
      && (commit.result == Ok(false) <==>
            var found := Interfere(read, env.latest);
            && found.revision != read.revision
            && found.run == intended.run && found.stories == intended.stories
            && found.agents == MergeAgents(found.agents, intended.agents))
      && (commit.result.Err? ==> commit.snapshot == Interfere(Interfere(read, env.latest), env.latestAgain))
  {
  }
}
