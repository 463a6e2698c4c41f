/**
 Two properties of whole drains. Every action a tick admits succeeds when its
 turn comes; and a drain becomes quiet: by its third tick, or one tick later
 for every launch that recovers an agent instead of creating one.
 */
module DrainQuiescence {
  import opened Wrappers
  import opened Graph
  import opened Complexity
  import opened ControllerState
  import opened Scheduling
  import opened SchedulingProgress
  import opened Orchestration
  import opened OrchestrationEffects
  import opened OrchestrationLoop

  // ---------------------------------------------------------------- hypotheses

  /** Unique ids, closed dependencies, and review evidence wherever a guard asks for it. */
  ghost predicate Workable(s: Snapshot, config: LoopConfig) {
    && Distinct(StoryIds(s.stories))
    && CanSchedule(s, config)
    && forall story | story in s.stories :: EvidenceInPlace(story)
  }

  ghost predicate Sound(s: Snapshot, config: LoopConfig) {
    Workable(s, config) && Distinct(AgentIds(s.agents))
  }

  /** The effects of the tick succeed on a clock that is not behind the snapshot's. */
  ghost predicate EffectsSucceed(s: Snapshot, actions: seq<OrchestrationAction>, env: TickEnv) {
    UpToDate(s, env.now) && forall a | a in actions :: Succeeds(a, env.answers(a), env.now)
  }

  /** Team members are launched in the role they were asked for. */
  ghost predicate RightRoles(actions: seq<OrchestrationAction>, team: Option<InitialTeam>, answers: Answers) {
    forall a | a in actions && answers(a).launch.Some? && team.Some? ::
      && (a.AssignProjectManager? ==> answers(a).launch.value.roleRuntimeId == team.value.projectManagerRole)
      && (a.AssignAdvisor? ==> team.value.advisorRole == Some(answers(a).launch.value.roleRuntimeId))
  }

  /** The agent is one the tick found, or a launch of this tick recorded by its launcher. */
  ghost predicate KnownOrLaunched(agent: AgentState, before: seq<AgentState>,
                                  actions: seq<OrchestrationAction>, answers: Answers) {
    agent in before || exists a ::
      && a in actions && IsAgentLaunch(a) && answers(a).launch.Some?
      && answers(a).launch.value.id == agent.id
      && answers(a).launch.value.roleRuntimeId == agent.roleRuntimeId
      && OccupiesAgentCapacity(agent.status)
  }

  /**
   Nothing commits while the tick runs, except that launchers may already have
   recorded the agents they launch.
   */
  ghost predicate QuietWorld(s: Snapshot, actions: seq<OrchestrationAction>, env: TickEnv) {
    && env.latestAgain.None?
    && (env.latest.Some? ==>
          && env.latest.value.run == s.run && env.latest.value.stories == s.stories
          && env.latest.value.revision > s.revision
          && forall agent | agent in env.latest.value.agents ::
               KnownOrLaunched(agent, s.agents, actions, env.answers))
  }

  /** Everything the drain theorem asks of the outside world during one tick. */
  ghost predicate Cooperates(s: Option<Snapshot>, config: LoopConfig, confirmed: set<string>, env: TickEnv,
                             identity: Identity)
  {
    s.Some? ==>
      && UpToDate(s.value, env.now)
      && var plan := PlanTick(s, config, confirmed, env.now);
         plan.Ok? && plan.value.Work? ==>
           var actions := plan.value.actions;
           && EffectsSucceed(s.value, actions, env)
           && LaunchesAnswered(actions, s.value.agents, env.answers, identity)
           && RightRoles(actions, config.team, env.answers)
           && QuietWorld(s.value, actions, env)
  }

  ghost predicate Favourable(s: Option<Snapshot>, config: LoopConfig, confirmed: set<string>, env: TickEnv,
                             identity: Identity)
  {
    Cooperates(s, config, confirmed, env, identity) && (s.Some? ==> Sound(s.value, config))
  }

  // ---------------------------------------------------------------- planned actions are enabled

  lemma TeamActionsShape(s: Snapshot, config: LoopConfig, confirmed: set<string>)
    ensures var actions := TeamActions(s, config.team, confirmed);
      && Independent(actions) && |actions| <= 2
      && forall a | a in actions ::
           (a.AssignProjectManager? || a.AssignAdvisor?) && s.stories != [] && a.storyId == s.stories[0].id
  {
    var actions := TeamActions(s, config.team, confirmed);
    if |actions| == 2 {
      assert actions[..1] == [actions[0]];
    }
  }

  lemma {:induction false} IndependentConcat(a: seq<OrchestrationAction>, b: seq<OrchestrationAction>)
    requires Independent(a) && Independent(b)
    requires forall x, y | x in a && y in b :: Compatible(x, y)
    ensures Independent(a + b)
  {
    if b == [] {
      assert a + b == a;
    } else {
      var init, last := b[..|b| - 1], b[|b| - 1];
      assert b == init + [last];
      IndependentSnoc(init, last);
      IndependentConcat(a, init);
      assert a + b == (a + init) + [last];
      IndependentSnoc(a + init, last);
    }
  }

  /** What a tick admits is independent, and each part of it is warranted by the snapshot. */
  lemma AdmittedShape(s: Snapshot, config: LoopConfig, confirmed: set<string>)
    requires Distinct(StoryIds(s.stories))
    ensures Independent(AdmittedActions(s, config, confirmed))
    ensures forall a | a in AdmittedActions(s, config, confirmed) ::
              || a in TeamActions(s, config.team, confirmed)
              || Warranted(Project(s, config.dependencies), s.run.complexity, a)
  {
    var team := TeamActions(s, config.team, confirmed);
    var stories, mode := Project(s, config.dependencies), s.run.complexity;
    TeamActionsShape(s, config, confirmed);
    NeededIsIndependent(stories, mode);
    AdmitKeepsIndependence(NeededActions(stories, mode), AvailableSlots(mode, 0));
    AdmitMembers(NeededActions(stories, mode), AvailableSlots(mode, 0));
    forall a | a in PlannedActions(stories, mode, 0) ensures Warranted(stories, mode, a) {
      NeededIffWarranted(stories, mode, a);
    }
    IndependentConcat(team, PlannedActions(stories, mode, 0));
    var slots := AvailableSlots(mode, CountOccupiedAgentSlots(s.agents));
    AdmitKeepsIndependence(CandidateActions(s, config, confirmed), slots);
    AdmitMembers(CandidateActions(s, config, confirmed), slots);
  }

  lemma WarrantedIsEnabled(s: Snapshot, config: LoopConfig, a: OrchestrationAction)
    requires s.run.status == RunStatus.Active && forall story | story in s.stories :: EvidenceInPlace(story)
    requires Warranted(Project(s, config.dependencies), s.run.complexity, a)
    ensures Enabled(a, s)
  {
    var stories := Project(s, config.dependencies);
    if ChangesStory(a) {
      var i: nat;
      if a.AssignStory? {
        i := StartableIsReady(stories, s.run.complexity, a.storyId);
      } else {
        i :| i < |stories| && stories[i].id == a.storyId &&
             HasNeed(stories[i], if a.RequestCleanup? then Cleanup else if a.RequestMerge? then Merge else Reviewer);
      }
      assert s.stories[i] in s.stories && stories[i].status == s.stories[i].status;
      assert Permits(s.stories[i], a);
    } else {
      forall story | story in s.stories ensures story.status == StoryStatus.Merged {
        var i :| 0 <= i < |s.stories| && s.stories[i] == story;
        assert stories[i].status == story.status;
      }
    }
  }

  lemma StartedActive(s: Snapshot, now: nat)
    requires !RestsIn(s.run.status) && UpToDate(s, now)
    ensures Started(s, now).Ok?
    ensures var started := Started(s, now).value;
      && started.run.status == RunStatus.Active && started.run.complexity == s.run.complexity
      && started.stories == s.stories && started.agents == s.agents && started.revision == s.revision
      && UpToDate(started, now)
  {
  }

  /**
   On a workable snapshot every action the tick admits succeeds when its turn
   comes: no transition is invalid, and neither the "not ready to merge" nor the
   "cannot be cleaned up" guard fires.
   */
  lemma AdmittedActionsSucceed(s: Snapshot, config: LoopConfig, confirmed: set<string>, env: TickEnv)
    requires Workable(s, config) && !RestsIn(s.run.status) && UpToDate(s, env.now)
    requires var plan := PlanTick(Some(s), config, confirmed, env.now);
      plan.Ok? && plan.value.Work? ==> EffectsSucceed(s, plan.value.actions, env)
    ensures var plan := PlanTick(Some(s), config, confirmed, env.now);
      && plan.Ok?
      && (plan.value.Work? ==>
            var r := ExecuteAll(plan.value.actions, plan.value.started, env.answers);
            && r.Ok? && Reached(plan.value.actions, plan.value.started, r.value, env.answers))
  {
    StartedActive(s, env.now);
    var started := Started(s, env.now).value;
    assert Project(started, config.dependencies) == Project(s, config.dependencies);
    var plan := PlanTick(Some(s), config, confirmed, env.now);
    if plan.value.Work? {
      var actions := plan.value.actions;
      AdmittedShape(started, config, confirmed);
      TeamActionsShape(started, config, confirmed);
      forall a | a in actions ensures Enabled(a, started) {
        if a in TeamActions(started, config.team, confirmed) {
          assert StoryIds(started.stories)[0] == a.storyId;
        } else {
          WarrantedIsEnabled(started, config, a);
        }
      }
      EnabledActionsSucceed(actions, started, env.answers, env.now);
    }
  }

  // ---------------------------------------------------------------- what a tick leaves behind

  /** The snapshot a successful working tick leaves. */
  ghost predicate LeftBy(s: Snapshot, t: Snapshot, actions: seq<OrchestrationAction>, answers: Answers) {
    && StoriesAfter(s.stories, t.stories, actions, answers)
    && StoryIds(t.stories) == StoryIds(s.stories)
    && Grown(s.agents, t.agents, actions, answers)
    && t.run.complexity == s.run.complexity
    && t.run.status == if CompleteRun in actions then RunStatus.Completed else RunStatus.Active
  }

  // ---------------------------------------------------------------- merging what the launchers recorded

  lemma {:induction false} NothingMissing(agents: seq<AgentState>, latest: seq<AgentState>)
    requires forall agent | agent in latest :: HasAgent(agents, agent.id)
    ensures AppendMissing(agents, latest) == agents
  {
    if latest != [] {
      NothingMissing(agents, latest[..|latest| - 1]);
    }
  }

  /** A record the launchers may have committed under the id of an agent the tick found. */
  lemma KnownIsAlike(before: seq<AgentState>, i: nat, current: AgentState, actions: seq<OrchestrationAction>,
                     answers: Answers, identity: Identity)
    requires Distinct(AgentIds(before)) && LaunchesAnswered(actions, before, answers, identity) && i < |before|
    requires KnownOrLaunched(current, before, actions, answers) && current.id == before[i].id
    ensures KeptOrRecovered(before[i], current, ConfirmedBy(actions, answers))
  {
    if current in before {
      var k :| 0 <= k < |before| && before[k] == current;
      SameIdSameAgent(before, i, k);
    } else {
      var a :| && a in actions && IsAgentLaunch(a) && answers(a).launch.Some?
               && answers(a).launch.value.id == current.id
               && answers(a).launch.value.roleRuntimeId == current.roleRuntimeId
               && OccupiesAgentCapacity(current.status);
      assert LaunchAnswered(a, before, answers(a), identity) && before[i] in before;
    }
  }

  lemma KnownOccupies(before: seq<AgentState>, current: AgentState, actions: seq<OrchestrationAction>, answers: Answers)
    requires KnownOrLaunched(current, before, actions, answers) && !HasAgent(before, current.id)
    ensures OccupiesAgentCapacity(current.status)
  {
    assert current in before ==> HasAgent(before, current.id);
  }

  /** The role an agent has after the tick is the one its launch was answered with. */
  lemma LaunchedRole(intended: seq<AgentState>, i: nat, before: seq<AgentState>, current: AgentState,
                     actions: seq<OrchestrationAction>, answers: Answers, identity: Identity)
    requires Grown(before, intended, actions, answers) && LaunchesAnswered(actions, before, answers, identity)
    requires i < |intended| && current.id == intended[i].id
    requires i >= |before| && KnownOrLaunched(current, before, actions, answers)
    ensures current.roleRuntimeId == intended[i].roleRuntimeId && OccupiesAgentCapacity(current.status)
  {
    NewIsUnseen(before, intended, i, actions, answers);
    KnownOccupies(before, current, actions, answers);
    assert current !in before;
    var a :| && a in actions && IsAgentLaunch(a) && answers(a).launch.Some?
             && answers(a).launch.value.id == current.id
             && answers(a).launch.value.roleRuntimeId == current.roleRuntimeId
             && OccupiesAgentCapacity(current.status);
    assert OnRecord(intended, answers(a).launch.value);
    var k :| 0 <= k < |intended| && intended[k].id == answers(a).launch.value.id
             && intended[k].roleRuntimeId == answers(a).launch.value.roleRuntimeId;
    SameIdSameAgent(intended, i, k);
  }

  lemma NewIsUnseen(before: seq<AgentState>, after: seq<AgentState>, i: nat, actions: seq<OrchestrationAction>,
                    answers: Answers)
    requires Grown(before, after, actions, answers) && |before| <= i < |after|
    ensures !HasAgent(before, after[i].id)
  {
    forall agent | agent in before ensures agent.id != after[i].id {
      var k :| 0 <= k < |before| && before[k] == agent;
      assert KeptOrRecovered(before[k], after[k], ConfirmedBy(actions, answers));
      assert AgentIds(after)[k] != AgentIds(after)[i];
    }
  }

  /** Merging with what the launchers recorded keeps every agent's id, role and slot. */
  lemma NewestIsAlike(before: seq<AgentState>, latest: seq<AgentState>, intended: seq<AgentState>, i: nat,
                      actions: seq<OrchestrationAction>, answers: Answers, identity: Identity)
    requires Distinct(AgentIds(before)) && LaunchesAnswered(actions, before, answers, identity)
    requires Grown(before, intended, actions, answers) && i < |intended|
    requires forall agent | agent in latest :: KnownOrLaunched(agent, before, actions, answers)
    ensures var merged := Newest(intended[i], latest);
      && merged.id == intended[i].id && merged.roleRuntimeId == intended[i].roleRuntimeId
      && (i < |before| ==> KeptOrRecovered(before[i], merged, ConfirmedBy(actions, answers)))
      && (i >= |before| ==> OccupiesAgentCapacity(merged.status))
  {
    var found := FindAgent(latest, intended[i].id);
    if i < |before| {
      assert KeptOrRecovered(before[i], intended[i], ConfirmedBy(actions, answers));
    }
    if found.Some? {
      assert KnownOrLaunched(found.value, before, actions, answers);
      if i < |before| {
        KnownIsAlike(before, i, found.value, actions, answers, identity);
      } else {
        LaunchedRole(intended, i, before, found.value, actions, answers, identity);
      }
    }
  }

  lemma KnownIsIntended(before: seq<AgentState>, intended: seq<AgentState>, agent: AgentState,
                        actions: seq<OrchestrationAction>, answers: Answers)
    returns (k: nat)
    requires Grown(before, intended, actions, answers) && KnownOrLaunched(agent, before, actions, answers)
    ensures k < |intended| && intended[k].id == agent.id
  {
    if agent in before {
      k :| 0 <= k < |before| && before[k] == agent;
      assert KeptOrRecovered(before[k], intended[k], ConfirmedBy(actions, answers));
    } else {
      var a :| && a in actions && IsAgentLaunch(a) && answers(a).launch.Some?
               && answers(a).launch.value.id == agent.id
               && answers(a).launch.value.roleRuntimeId == agent.roleRuntimeId
               && OccupiesAgentCapacity(agent.status);
      assert OnRecord(intended, answers(a).launch.value);
      k :| 0 <= k < |intended| && intended[k].id == answers(a).launch.value.id
           && intended[k].roleRuntimeId == answers(a).launch.value.roleRuntimeId;
    }
  }

  /** Records that agree in id, role and slot make the same growth. */
  lemma GrownAlike(before: seq<AgentState>, intended: seq<AgentState>, mapped: seq<AgentState>,
                   actions: seq<OrchestrationAction>, answers: Answers)
    requires Grown(before, intended, actions, answers) && |mapped| == |intended|
    requires forall i :: 0 <= i < |intended| ==>
      mapped[i].id == intended[i].id && mapped[i].roleRuntimeId == intended[i].roleRuntimeId
    requires forall i :: 0 <= i < |before| ==> KeptOrRecovered(before[i], mapped[i], ConfirmedBy(actions, answers))
    requires forall i :: |before| <= i < |intended| ==> OccupiesAgentCapacity(mapped[i].status)
    ensures Grown(before, mapped, actions, answers)
  {
    assert AgentIds(mapped) == AgentIds(intended);
    forall a | a in actions && IsAgentLaunch(a) && answers(a).launch.Some?
      ensures OnRecord(mapped, answers(a).launch.value)
    {
      assert OnRecord(intended, answers(a).launch.value);
      var k :| 0 <= k < |intended| && intended[k].id == answers(a).launch.value.id
               && intended[k].roleRuntimeId == answers(a).launch.value.roleRuntimeId;
      assert mapped[k].id == intended[k].id;
    }
  }

  lemma MergedGrown(before: seq<AgentState>, latest: seq<AgentState>, intended: seq<AgentState>,
                    actions: seq<OrchestrationAction>, answers: Answers, identity: Identity)
    requires Distinct(AgentIds(before)) && LaunchesAnswered(actions, before, answers, identity)
    requires Grown(before, intended, actions, answers)
    requires forall agent | agent in latest :: KnownOrLaunched(agent, before, actions, answers)
    ensures Grown(before, MergeAgents(latest, intended), actions, answers)
  {
    var mapped := NewestOf(intended, latest);
    forall i | 0 <= i < |intended|
      ensures && mapped[i].id == intended[i].id && mapped[i].roleRuntimeId == intended[i].roleRuntimeId
              && (i < |before| ==> KeptOrRecovered(before[i], mapped[i], ConfirmedBy(actions, answers)))
              && (i >= |before| ==> OccupiesAgentCapacity(mapped[i].status))
    {
      NewestIsAlike(before, latest, intended, i, actions, answers, identity);
    }
    GrownAlike(before, intended, mapped, actions, answers);
    forall agent | agent in latest ensures HasAgent(mapped, agent.id) {
      var k := KnownIsIntended(before, intended, agent, actions, answers);
      assert mapped[k] in mapped;
    }
    NothingMissing(mapped, latest);
  }

  lemma CommitKeepsEffects(s: Snapshot, intended: Snapshot, actions: seq<OrchestrationAction>, env: TickEnv)
    requires QuietWorld(s, actions, env)
    ensures var commit := CommitTick(s, intended, env);
      && commit.result.Ok?
      && commit.snapshot.run == intended.run && commit.snapshot.stories == intended.stories
      && commit.snapshot.agents == if env.latest.None? then intended.agents
                                   else MergeAgents(env.latest.value.agents, intended.agents)
  {
  }

  lemma WorkingTick(s: Snapshot, config: LoopConfig, confirmed: set<string>, env: TickEnv,
                    started: Snapshot, actions: seq<OrchestrationAction>, intended: Snapshot)
    requires PlanTick(Some(s), config, confirmed, env.now) == Ok(Work(started, actions))
    requires ExecuteAll(actions, started, env.answers) == Ok(intended)
    requires CommitTick(s, intended, env).result.Ok?
    ensures var tick := Tick(Some(s), config, confirmed, env);
      && tick.result.Ok? && tick.result.value.actions == actions
      && tick.snapshot == Some(CommitTick(s, intended, env).snapshot)
      && tick.confirmed == confirmed + ConfirmedBy(actions, env.answers)
  {
  }

  /** A favourable working tick succeeds, and leaves exactly its effects. */
  lemma TickLeaves(s: Snapshot, config: LoopConfig, confirmed: set<string>, env: TickEnv, identity: Identity,
                   started: Snapshot, actions: seq<OrchestrationAction>)
    returns (t: Snapshot)
    requires Favourable(Some(s), config, confirmed, env, identity)
    requires PlanTick(Some(s), config, confirmed, env.now) == Ok(Work(started, actions))
    ensures var tick := Tick(Some(s), config, confirmed, env);
      && tick.result.Ok? && tick.result.value.actions == actions
      && tick.snapshot == Some(t)
      && tick.confirmed == confirmed + ConfirmedBy(actions, env.answers)
    ensures LeftBy(s, t, actions, env.answers)
  {
    AdmittedActionsSucceed(s, config, confirmed, env);
    StartedActive(s, env.now);
    AdmittedShape(started, config, confirmed);
    var intended := ExecuteAll(actions, started, env.answers).value;
    LaunchesGrow(actions, started, env.answers, identity);
    if env.latest.Some? {
      MergedGrown(s.agents, env.latest.value.agents, intended.agents, actions, env.answers, identity);
    }
    CommitKeepsEffects(s, intended, actions, env);
    WorkingTick(s, config, confirmed, env, started, actions, intended);
    t := CommitTick(s, intended, env).snapshot;
  }

  // ---------------------------------------------------------------- what no longer needs doing

  ghost predicate NoMergePending(s: Snapshot) {
    forall story | story in s.stories :: !(story.status == StoryStatus.Approved && ReviewerClosed(story, s.agents))
  }

  ghost predicate NoCleanupPending(s: Snapshot) {
    forall story | story in s.stories :: story.status == StoryStatus.Merged ==> story.workspaceCleaned
  }

  ghost predicate EveryStoryMerged(s: Snapshot) {
    s.stories != [] && forall story | story in s.stories :: story.status == StoryStatus.Merged
  }

  /** No launch is wanted, or no slot is free for one. */
  ghost predicate LaunchesSettled(s: Snapshot, config: LoopConfig, confirmed: set<string>) {
    || LaunchCount(CandidateActions(s, config, confirmed)) == 0
    || AvailableSlots(s.run.complexity, CountOccupiedAgentSlots(s.agents)) == 0
  }

  /** Non-launch actions of a tick are exactly the warranted ones. */
  lemma AdmittedUnlessLaunch(s: Snapshot, config: LoopConfig, confirmed: set<string>, a: OrchestrationAction)
    requires !IsAgentLaunch(a)
    ensures a in AdmittedActions(s, config, confirmed) <==>
            Warranted(Project(s, config.dependencies), s.run.complexity, a)
  {
    var stories, mode := Project(s, config.dependencies), s.run.complexity;
    TeamActionsOnlyLaunch(s, config, confirmed);
    NeededIffWarranted(stories, mode, a);
    AdmitMembers(NeededActions(stories, mode), AvailableSlots(mode, 0));
    AdmitMembers(CandidateActions(s, config, confirmed), AvailableSlots(mode, CountOccupiedAgentSlots(s.agents)));
  }

  lemma TeamActionsOnlyLaunch(s: Snapshot, config: LoopConfig, confirmed: set<string>)
    ensures forall a | a in TeamActions(s, config.team, confirmed) :: a.AssignProjectManager? || a.AssignAdvisor?
  {
  }

  /** The action that names a story in a tick is decided by the story's status. */
  lemma TargetByStatus(s: Snapshot, config: LoopConfig, confirmed: set<string>, a: OrchestrationAction, i: nat)
    requires Distinct(StoryIds(s.stories)) && i < |s.stories|
    requires a in AdmittedActions(s, config, confirmed) && Targets(a, s.stories[i])
    ensures match s.stories[i].status
            case Merged => a.RequestCleanup?
            case Approved => a.RequestMerge?
            case AwaitingReview => a.AssignReviewer?
            case Ready => a.AssignStory?
            case ChangesRequested => a.AssignStory?
            case _ => false
  {
    var stories, mode := Project(s, config.dependencies), s.run.complexity;
    AdmittedShape(s, config, confirmed);
    TeamActionsOnlyLaunch(s, config, confirmed);
    var k := StatusDecidesAction(stories, mode, a);
    assert StoryIds(s.stories)[k] == StoryIds(s.stories)[i];
  }

  lemma Warrants(s: Snapshot, config: LoopConfig, i: nat, need: Need)
    requires i < |s.stories| && HasNeed(Project(s, config.dependencies)[i], need)
    ensures Warranted(Project(s, config.dependencies), s.run.complexity, ActionFor(need, s.stories[i].id))
  {
    assert Project(s, config.dependencies)[i].id == s.stories[i].id;
  }

  /** What a tick does to the story one of its actions names. */
  lemma TargetedStatus(s: Snapshot, t: Snapshot, config: LoopConfig, confirmed: set<string>, answers: Answers,
                       i: nat, a: OrchestrationAction)
    requires Distinct(StoryIds(s.stories)) && i < |s.stories|
    requires LeftBy(s, t, AdmittedActions(s, config, confirmed), answers)
    requires a in AdmittedActions(s, config, confirmed) && Targets(a, s.stories[i])
    ensures Changed(s.stories[i], t.stories[i], a, answers(a))
  {
    assert StoryAfter(s.stories[i], t.stories[i], AdmittedActions(s, config, confirmed), answers);
  }

  ghost predicate MovedBy(before: StoryState, after: StoryState, actions: seq<OrchestrationAction>) {
    && (RequestMerge(before.id) in actions ==>
          before.status == StoryStatus.Approved && after.status == StoryStatus.Merged)
    && (RequestCleanup(before.id) in actions ==>
          before.status == StoryStatus.Merged && after.status == StoryStatus.Merged && after.workspaceCleaned)
    && (AssignReviewer(before.id) in actions ==>
          before.status == StoryStatus.AwaitingReview && after.status == StoryStatus.AwaitingReview
          && after.reviewerAgentId.Some?)
    && (AssignStory(before.id) in actions ==>
          before.status in {StoryStatus.Ready, StoryStatus.ChangesRequested} && after.status == StoryStatus.Assigned)
    && ((RequestMerge(before.id) !in actions && RequestCleanup(before.id) !in actions
         && AssignReviewer(before.id) !in actions && AssignStory(before.id) !in actions) ==> after == before)
  }

  /** How one story's status moves in a tick. */
  lemma StatusAfter(s: Snapshot, t: Snapshot, config: LoopConfig, confirmed: set<string>, answers: Answers, i: nat)
    requires Distinct(StoryIds(s.stories)) && i < |s.stories|
    requires LeftBy(s, t, AdmittedActions(s, config, confirmed), answers)
    ensures MovedBy(s.stories[i], t.stories[i], AdmittedActions(s, config, confirmed))
  {
    var id, actions := s.stories[i].id, AdmittedActions(s, config, confirmed);
    if RequestMerge(id) in actions {
      TargetByStatus(s, config, confirmed, RequestMerge(id), i);
      TargetedStatus(s, t, config, confirmed, answers, i, RequestMerge(id));
    }
    if RequestCleanup(id) in actions {
      TargetByStatus(s, config, confirmed, RequestCleanup(id), i);
      TargetedStatus(s, t, config, confirmed, answers, i, RequestCleanup(id));
    }
    if AssignReviewer(id) in actions {
      TargetByStatus(s, config, confirmed, AssignReviewer(id), i);
      TargetedStatus(s, t, config, confirmed, answers, i, AssignReviewer(id));
    }
    if AssignStory(id) in actions {
      TargetByStatus(s, config, confirmed, AssignStory(id), i);
      TargetedStatus(s, t, config, confirmed, answers, i, AssignStory(id));
    }
    if RequestMerge(id) !in actions && RequestCleanup(id) !in actions
       && AssignReviewer(id) !in actions && AssignStory(id) !in actions {
    }
  }

  lemma {:induction false} FindAt(agents: seq<AgentState>, i: nat)
    requires Distinct(AgentIds(agents)) && i < |agents|
    ensures FindAgent(agents, agents[i].id) == Some(agents[i])
  {
    var found := FindAgent(agents, agents[i].id).value;
    var k :| 0 <= k < |agents| && agents[k] == found;
    SameIdSameAgent(agents, i, k);
  }

  lemma FoundDistinct(before: seq<AgentState>, after: seq<AgentState>, actions: seq<OrchestrationAction>,
                      answers: Answers)
    requires Grown(before, after, actions, answers)
    ensures Distinct(AgentIds(before))
  {
    forall i, j | 0 <= i < j < |before| ensures AgentIds(before)[i] != AgentIds(before)[j] {
      assert KeptOrRecovered(before[i], after[i], ConfirmedBy(actions, answers));
      assert KeptOrRecovered(before[j], after[j], ConfirmedBy(actions, answers));
      assert AgentIds(after)[i] != AgentIds(after)[j];
    }
  }

  lemma ReviewerClosedStays(story: StoryState, before: seq<AgentState>, after: seq<AgentState>,
                            actions: seq<OrchestrationAction>, answers: Answers)
    requires Grown(before, after, actions, answers)
    ensures ReviewerClosed(story, after) <==> ReviewerClosed(story, before)
  {
    FoundDistinct(before, after, actions, answers);
    if story.reviewerAgentId.Some? {
      var id := story.reviewerAgentId.value;
      if i :| 0 <= i < |after| && after[i].id == id {
        FindAt(after, i);
        if i < |before| {
          assert KeptOrRecovered(before[i], after[i], ConfirmedBy(actions, answers));
          FindAt(before, i);
        } else {
          NewIsUnseen(before, after, i, actions, answers);
        }
      } else {
        assert FindAgent(after, id).None?;
        forall agent | agent in before ensures agent.id != id {
          var k :| 0 <= k < |before| && before[k] == agent;
          assert KeptOrRecovered(before[k], after[k], ConfirmedBy(actions, answers));
        }
      }
    }
  }

  /** A tick merges every approved story whose reviewer had closed. */
  lemma TickMerges(s: Snapshot, t: Snapshot, config: LoopConfig, confirmed: set<string>, answers: Answers)
    requires Distinct(StoryIds(s.stories)) && LeftBy(s, t, AdmittedActions(s, config, confirmed), answers)
    ensures NoMergePending(t)
  {
    forall story | story in t.stories
      ensures !(story.status == StoryStatus.Approved && ReviewerClosed(story, t.agents))
    {
      var i: nat :| i < |t.stories| && t.stories[i] == story;
      StatusAfter(s, t, config, confirmed, answers, i);
      ReviewerClosedStays(story, s.agents, t.agents, AdmittedActions(s, config, confirmed), answers);
      if s.stories[i] == story && story.status == StoryStatus.Approved && ReviewerClosed(story, s.agents) {
        Warrants(s, config, i, Merge);
        AdmittedUnlessLaunch(s, config, confirmed, RequestMerge(story.id));
      }
    }
  }

  /** With no merge pending a tick merges nothing. */
  lemma NothingMerges(s: Snapshot, config: LoopConfig, confirmed: set<string>, id: string)
    requires NoMergePending(s)
    ensures RequestMerge(id) !in AdmittedActions(s, config, confirmed)
  {
    var stories := Project(s, config.dependencies);
    AdmittedUnlessLaunch(s, config, confirmed, RequestMerge(id));
    forall i | 0 <= i < |stories| ensures !HasNeed(stories[i], Merge) {
      assert s.stories[i] in s.stories;
    }
  }

  /** With no merge pending, a tick cleans up every merged story and merges no other. */
  lemma TickCleans(s: Snapshot, t: Snapshot, config: LoopConfig, confirmed: set<string>, answers: Answers)
    requires Distinct(StoryIds(s.stories)) && LeftBy(s, t, AdmittedActions(s, config, confirmed), answers)
    requires NoMergePending(s)
    ensures NoCleanupPending(t)
    ensures EveryStoryMerged(t) ==> EveryStoryMerged(s)
  {
    forall i: nat | i < |t.stories| && t.stories[i].status == StoryStatus.Merged
      ensures s.stories[i].status == StoryStatus.Merged && t.stories[i].workspaceCleaned
    {
      StatusAfter(s, t, config, confirmed, answers, i);
      NothingMerges(s, config, confirmed, s.stories[i].id);
      if s.stories[i] == t.stories[i] && !t.stories[i].workspaceCleaned {
        Warrants(s, config, i, Cleanup);
        AdmittedUnlessLaunch(s, config, confirmed, RequestCleanup(s.stories[i].id));
      }
    }
    if EveryStoryMerged(t) {
      forall story | story in s.stories ensures story.status == StoryStatus.Merged {
        var i: nat :| i < |s.stories| && s.stories[i] == story;
        assert t.stories[i] in t.stories;
      }
    }
  }

  // ---------------------------------------------------------------- launches settle

  lemma {:induction false} OccupiedGrows(before: seq<AgentState>, after: seq<AgentState>)
    requires |before| <= |after|
    requires forall i :: 0 <= i < |before| ==>
      (OccupiesAgentCapacity(after[i].status) <==> OccupiesAgentCapacity(before[i].status))
    requires forall i :: |before| <= i < |after| ==> OccupiesAgentCapacity(after[i].status)
    ensures CountOccupiedAgentSlots(after) == CountOccupiedAgentSlots(before) + |after| - |before|
    decreases |after|
  {
    if |after| > |before| {
      OccupiedGrows(before, after[..|after| - 1]);
    } else if after != [] {
      OccupiedGrows(before[..|before| - 1], after[..|after| - 1]);
    }
  }

  /** A tick takes one slot for each agent its launches create. */
  lemma SlotsTaken(before: seq<AgentState>, after: seq<AgentState>, actions: seq<OrchestrationAction>, answers: Answers)
    requires Grown(before, after, actions, answers)
    ensures CountOccupiedAgentSlots(after) == CountOccupiedAgentSlots(before) + NewAgents(actions, before, answers)
  {
    forall i | 0 <= i < |before|
      ensures OccupiesAgentCapacity(after[i].status) <==> OccupiesAgentCapacity(before[i].status)
    {
      assert KeptOrRecovered(before[i], after[i], ConfirmedBy(actions, answers));
    }
    OccupiedGrows(before, after);
  }

  ghost predicate RecoversSome(actions: seq<OrchestrationAction>, agents: seq<AgentState>, answers: Answers) {
    exists a :: a in actions && Recovers(a, agents, answers)
  }

  /** When a launch is held back, the tick has used the last slot, unless one of its launches recovered an agent. */
  lemma HeldBackMeansFull(s: Snapshot, t: Snapshot, config: LoopConfig, confirmed: set<string>, answers: Answers)
    requires LeftBy(s, t, AdmittedActions(s, config, confirmed), answers)
    requires !RecoversSome(AdmittedActions(s, config, confirmed), s.agents, answers)
    requires var stories, mode := Project(s, config.dependencies), s.run.complexity;
      || LaunchCount(CandidateActions(s, config, confirmed)) > AvailableSlots(mode, CountOccupiedAgentSlots(s.agents))
      || LaunchCount(NeededActions(stories, mode)) > MaximumAgents(mode)
    ensures AvailableSlots(t.run.complexity, CountOccupiedAgentSlots(t.agents)) == 0
  {
    var stories, mode := Project(s, config.dependencies), s.run.complexity;
    AdmitCount(NeededActions(stories, mode), AvailableSlots(mode, 0));
    LaunchCountAdds(TeamActions(s, config.team, confirmed), PlannedActions(stories, mode, 0));
    AdmitCount(CandidateActions(s, config, confirmed), AvailableSlots(mode, CountOccupiedAgentSlots(s.agents)));
    AllNewUnlessRecovered(AdmittedActions(s, config, confirmed), s.agents, answers);
    SlotsTaken(s.agents, t.agents, AdmittedActions(s, config, confirmed), answers);
  }

  lemma TeamSettles(s: Snapshot, t: Snapshot, config: LoopConfig, confirmed: set<string>, answers: Answers)
    requires LeftBy(s, t, AdmittedActions(s, config, confirmed), answers)
    requires RightRoles(AdmittedActions(s, config, confirmed), config.team, answers)
    requires forall a | a in AdmittedActions(s, config, confirmed) && IsAgentLaunch(a) :: answers(a).launch.Some?
    requires forall a | a in TeamActions(s, config.team, confirmed) :: a in AdmittedActions(s, config, confirmed)
    ensures TeamActions(t, config.team, confirmed + ConfirmedBy(AdmittedActions(s, config, confirmed), answers)) == []
  {
    var actions := AdmittedActions(s, config, confirmed);
    assert s.stories == [] <==> t.stories == [];
    if config.team.Some? && s.stories != [] {
      var manager := AssignProjectManager(s.stories[0].id);
      if !HoldsRole(s.agents, confirmed, config.team.value.projectManagerRole) {
        assert manager in TeamActions(s, config.team, confirmed);
      }
      RoleSettles(s, t, actions, answers, confirmed, config.team.value.projectManagerRole, manager);
      if config.team.value.advisorRole.Some? {
        var advisor := AssignAdvisor(s.stories[0].id);
        if !HoldsRole(s.agents, confirmed, config.team.value.advisorRole.value) {
          assert advisor in TeamActions(s, config.team, confirmed);
        }
        RoleSettles(s, t, actions, answers, confirmed, config.team.value.advisorRole.value, advisor);
      }
    }
  }

  /** A role that was held, or that a launch of the tick was answered with, is held afterwards. */
  lemma RoleSettles(s: Snapshot, t: Snapshot, actions: seq<OrchestrationAction>, answers: Answers,
                    confirmed: set<string>, role: string, launch: OrchestrationAction)
    requires Grown(s.agents, t.agents, actions, answers) && IsAgentLaunch(launch)
    requires HoldsRole(s.agents, confirmed, role) ||
             (launch in actions && answers(launch).launch.Some? && answers(launch).launch.value.roleRuntimeId == role)
    ensures HoldsRole(t.agents, confirmed + ConfirmedBy(actions, answers), role)
  {
    if HoldsRole(s.agents, confirmed, role) {
      var agent :| agent in s.agents && agent.roleRuntimeId == role && CountsAsLaunched(agent, confirmed);
      var k :| 0 <= k < |s.agents| && s.agents[k] == agent;
      assert KeptOrRecovered(agent, t.agents[k], ConfirmedBy(actions, answers)) && t.agents[k] in t.agents;
    } else {
      assert OnRecord(t.agents, answers(launch).launch.value);
      var k :| 0 <= k < |t.agents| && t.agents[k].id == answers(launch).launch.value.id
               && t.agents[k].roleRuntimeId == role;
      assert t.agents[k] in t.agents && t.agents[k].id in ConfirmedBy(actions, answers);
    }
  }

  /** The tick admitted everything the stories need. */
  ghost predicate AdmittedInFull(s: Snapshot, config: LoopConfig, confirmed: set<string>) {
    && AdmittedActions(s, config, confirmed) == CandidateActions(s, config, confirmed)
    && PlannedActions(Project(s, config.dependencies), s.run.complexity, 0)
       == NeededActions(Project(s, config.dependencies), s.run.complexity)
  }

  /** Once every awaiting story got its reviewer, none needs one. */
  lemma ReviewersSettle(s: Snapshot, t: Snapshot, config: LoopConfig, confirmed: set<string>, answers: Answers)
    requires Distinct(StoryIds(s.stories)) && LeftBy(s, t, AdmittedActions(s, config, confirmed), answers)
    requires AdmittedInFull(s, config, confirmed)
    ensures ActionsFor(Project(t, config.dependencies), Reviewer) == []
  {
    var stories := Project(t, config.dependencies);
    forall i: nat | i < |stories| ensures !HasNeed(stories[i], Reviewer) {
      StatusAfter(s, t, config, confirmed, answers, i);
      if HasNeed(Project(s, config.dependencies)[i], Reviewer) {
        Warrants(s, config, i, Reviewer);
        NeededIffWarranted(Project(s, config.dependencies), s.run.complexity, AssignReviewer(s.stories[i].id));
      }
    }
    NoneFor(stories, Reviewer);
  }

  lemma {:induction false} NoneFor(stories: seq<OrchestrationStory>, need: Need)
    requires forall i :: 0 <= i < |stories| ==> !HasNeed(stories[i], need)
    ensures ActionsFor(stories, need) == []
  {
    if stories != [] {
      NoneFor(stories[..|stories| - 1], need);
    }
  }

  lemma AssignStoryIffStartable(s: Snapshot, config: LoopConfig, confirmed: set<string>, id: string)
    requires AdmittedInFull(s, config, confirmed)
    ensures AssignStory(id) in AdmittedActions(s, config, confirmed) <==>
            id in Startable(Project(s, config.dependencies), s.run.complexity)
  {
    TeamActionsOnlyLaunch(s, config, confirmed);
    NeededIffWarranted(Project(s, config.dependencies), s.run.complexity, AssignStory(id));
  }

  /** How the scheduler sees a story after a tick that merged nothing and held nothing back. */
  lemma SchedulableAfter(s: Snapshot, t: Snapshot, config: LoopConfig, confirmed: set<string>, answers: Answers, i: nat)
    requires Distinct(StoryIds(s.stories)) && LeftBy(s, t, AdmittedActions(s, config, confirmed), answers)
    requires NoMergePending(s) && AdmittedInFull(s, config, confirmed) && i < |s.stories|
    ensures var before, after := Schedulables(Project(s, config.dependencies))[i],
                                 Schedulables(Project(t, config.dependencies))[i];
      && after.id == before.id && after.dependencies == before.dependencies
      && after.status == if before.id in Startable(Project(s, config.dependencies), s.run.complexity)
                         then Running else before.status
  {
    StatusAfter(s, t, config, confirmed, answers, i);
    NothingMerges(s, config, confirmed, s.stories[i].id);
    AssignStoryIffStartable(s, config, confirmed, s.stories[i].id);
    assert StoryIds(t.stories)[i] == StoryIds(s.stories)[i];
  }

  /** Once everything startable was assigned and nothing merged, nothing is startable. */
  lemma StartableSettles(s: Snapshot, t: Snapshot, config: LoopConfig, confirmed: set<string>, answers: Answers)
    requires Distinct(StoryIds(s.stories)) && LeftBy(s, t, AdmittedActions(s, config, confirmed), answers)
    requires NoMergePending(s) && AdmittedInFull(s, config, confirmed)
    ensures Startable(Project(t, config.dependencies), t.run.complexity) == []
  {
    var before := Schedulables(Project(s, config.dependencies));
    var after := Schedulables(Project(t, config.dependencies));
    var cap := StoryConcurrencyCap(s.run.complexity);
    assert Scheduling.Ids(before) == StoryIds(s.stories);
    ReadyDistinct(before, StatusesOf(before));
    forall i: nat | i < |before|
      ensures && after[i].id == before[i].id && after[i].dependencies == before[i].dependencies
              && after[i].status == if before[i].id in StartableIds(before, cap) then Running else before[i].status
    {
      SchedulableAfter(s, t, config, confirmed, answers, i);
    }
    NothingStartableAfterStart(before, after, cap);
  }

  /** With no merge pending, a favourable tick settles every launch, unless it recovers an agent. */
  lemma TickSettlesLaunches(s: Snapshot, t: Snapshot, config: LoopConfig, confirmed: set<string>, answers: Answers)
    requires Distinct(StoryIds(s.stories)) && LeftBy(s, t, AdmittedActions(s, config, confirmed), answers)
    requires NoMergePending(s)
    requires RightRoles(AdmittedActions(s, config, confirmed), config.team, answers)
    requires forall a | a in AdmittedActions(s, config, confirmed) && IsAgentLaunch(a) :: answers(a).launch.Some?
    ensures LaunchesSettled(t, config, confirmed + ConfirmedBy(AdmittedActions(s, config, confirmed), answers))
            || RecoversSome(AdmittedActions(s, config, confirmed), s.agents, answers)
  {
    var stories, mode := Project(s, config.dependencies), s.run.complexity;
    var slots := AvailableSlots(mode, CountOccupiedAgentSlots(s.agents));
    if LaunchCount(CandidateActions(s, config, confirmed)) <= slots
       && LaunchCount(NeededActions(stories, mode)) <= MaximumAgents(mode) {
      AdmitMembers(CandidateActions(s, config, confirmed), slots);
      AdmitMembers(NeededActions(stories, mode), AvailableSlots(mode, 0));
      TeamSettles(s, t, config, confirmed, answers);
      ReviewersSettle(s, t, config, confirmed, answers);
      StartableSettles(s, t, config, confirmed, answers);
      NoLaunchWanted(t, config, confirmed + ConfirmedBy(AdmittedActions(s, config, confirmed), answers));
    } else if !RecoversSome(AdmittedActions(s, config, confirmed), s.agents, answers) {
      HeldBackMeansFull(s, t, config, confirmed, answers);
    }
  }

  lemma NoLaunchWanted(t: Snapshot, config: LoopConfig, confirmed: set<string>)
    requires TeamActions(t, config.team, confirmed) == []
    requires ActionsFor(Project(t, config.dependencies), Reviewer) == []
    requires Startable(Project(t, config.dependencies), t.run.complexity) == []
    ensures LaunchCount(CandidateActions(t, config, confirmed)) == 0
  {
    var stories, mode := Project(t, config.dependencies), t.run.complexity;
    forall a | a in NeededActions(stories, mode) ensures !IsAgentLaunch(a) {
      ActionsForMembers(stories, Cleanup);
      ActionsForMembers(stories, Merge);
    }
    AdmitMembers(NeededActions(stories, mode), AvailableSlots(mode, 0));
    NoLaunches(CandidateActions(t, config, confirmed));
  }

  // ---------------------------------------------------------------- launches that can still recover an agent

  /** The launches that the team and the stories' states could still ask for. */
  function Outstanding(s: Snapshot, config: LoopConfig, confirmed: set<string>): set<OrchestrationAction> {
    (set a | a in TeamActions(s, config.team, confirmed))
    + (set story | story in s.stories && story.status in {StoryStatus.Ready, StoryStatus.ChangesRequested}
         :: AssignStory(story.id))
    + (set story | story in s.stories && story.status == StoryStatus.AwaitingReview && story.reviewerAgentId.None?
         :: AssignReviewer(story.id))
  }

  predicate OccupiedUnder(agents: seq<AgentState>, id: string) {
    exists i :: 0 <= i < |agents| && agents[i].id == id && OccupiesAgentCapacity(agents[i].status)
  }

  /** The outstanding launches whose agent is already on record, and holds a slot. */
  function Recoverable(s: Snapshot, config: LoopConfig, confirmed: set<string>, identity: Identity)
    : set<OrchestrationAction>
  {
    set a | a in Outstanding(s, config, confirmed) && OccupiedUnder(s.agents, identity(a))
  }

  lemma OutstandingAreLaunches(s: Snapshot, config: LoopConfig, confirmed: set<string>)
    ensures forall a | a in Outstanding(s, config, confirmed) :: IsAgentLaunch(a)
  {
  }

  lemma OutstandingStory(t: Snapshot, config: LoopConfig, confirmed: set<string>, a: OrchestrationAction)
    returns (i: nat)
    requires a in Outstanding(t, config, confirmed) && ChangesStory(a)
    ensures i < |t.stories| && t.stories[i].id == a.storyId
    ensures a.AssignStory? || a.AssignReviewer?
    ensures a.AssignStory? ==> t.stories[i].status in {StoryStatus.Ready, StoryStatus.ChangesRequested}
    ensures a.AssignReviewer? ==>
      t.stories[i].status == StoryStatus.AwaitingReview && t.stories[i].reviewerAgentId.None?
  {
    TeamActionsOnlyLaunch(t, config, confirmed);
    var story :| story in t.stories && story.id == a.storyId
      && if a.AssignStory? then story.status in {StoryStatus.Ready, StoryStatus.ChangesRequested}
         else story.status == StoryStatus.AwaitingReview && story.reviewerAgentId.None?;
    i :| 0 <= i < |t.stories| && t.stories[i] == story;
  }

  /** A story that could still get a launch after the tick could have got it before, and the tick did not grant it. */
  lemma StoryStaysOutstanding(s: Snapshot, t: Snapshot, config: LoopConfig, confirmed: set<string>, answers: Answers,
                              a: OrchestrationAction, later: set<string>)
    requires Distinct(StoryIds(s.stories)) && LeftBy(s, t, AdmittedActions(s, config, confirmed), answers)
    requires a in Outstanding(t, config, later) && ChangesStory(a)
    ensures a in Outstanding(s, config, confirmed) && a !in AdmittedActions(s, config, confirmed)
  {
    var i := OutstandingStory(t, config, later, a);
    assert StoryIds(t.stories)[i] == StoryIds(s.stories)[i];
    StatusAfter(s, t, config, confirmed, answers, i);
    assert s.stories[i] in s.stories;
  }

  /** A team role still unfilled after the tick was unfilled before, and the tick did not launch for it. */
  lemma TeamStaysOutstanding(s: Snapshot, t: Snapshot, config: LoopConfig, confirmed: set<string>, answers: Answers,
                             a: OrchestrationAction)
    requires LeftBy(s, t, AdmittedActions(s, config, confirmed), answers)
    requires RightRoles(AdmittedActions(s, config, confirmed), config.team, answers)
    requires forall b | b in AdmittedActions(s, config, confirmed) && IsAgentLaunch(b) :: answers(b).launch.Some?
    requires a in TeamActions(t, config.team, confirmed + ConfirmedBy(AdmittedActions(s, config, confirmed), answers))
    ensures a in TeamActions(s, config.team, confirmed) && a !in AdmittedActions(s, config, confirmed)
  {
    var actions := AdmittedActions(s, config, confirmed);
    assert StoryIds(t.stories)[0] == StoryIds(s.stories)[0];
    var role := if a.AssignProjectManager? then config.team.value.projectManagerRole
      else config.team.value.advisorRole.value;
    if HoldsRole(s.agents, confirmed, role) || a in actions {
      RoleSettles(s, t, actions, answers, confirmed, role, a);
    }
  }

  /** An agent that the tick created is not the one a launch outside the tick looks for. */
  lemma CreatedForAnother(before: seq<AgentState>, after: seq<AgentState>, actions: seq<OrchestrationAction>,
                          answers: Answers, identity: Identity, a: OrchestrationAction, i: nat)
    requires Grown(before, after, actions, answers) && LaunchesAnswered(actions, before, answers, identity)
    requires IsAgentLaunch(a) && a !in actions && |before| <= i < |after|
    ensures after[i].id != identity(a)
  {
    assert after[i].id in ConfirmedBy(actions, answers);
    var b :| b in actions && IsAgentLaunch(b) && answers(b).launch.Some? && answers(b).launch.value.id == after[i].id;
    assert LaunchAnswered(b, before, answers(b), identity);
  }

  /** The agent that a launch outside the tick could recover afterwards held its slot before. */
  lemma OccupiedBefore(before: seq<AgentState>, after: seq<AgentState>, actions: seq<OrchestrationAction>,
                       answers: Answers, identity: Identity, a: OrchestrationAction)
    requires Grown(before, after, actions, answers) && LaunchesAnswered(actions, before, answers, identity)
    requires IsAgentLaunch(a) && a !in actions && OccupiedUnder(after, identity(a))
    ensures OccupiedUnder(before, identity(a))
  {
    var i :| 0 <= i < |after| && after[i].id == identity(a) && OccupiesAgentCapacity(after[i].status);
    forall j: nat | |before| <= j < |after| ensures after[j].id != identity(a) {
      CreatedForAnother(before, after, actions, answers, identity, a, j);
    }
    assert KeptOrRecovered(before[i], after[i], ConfirmedBy(actions, answers));
  }

  /** A tick makes no launch outstanding, and settles those it grants. */
  lemma StaysOutstanding(s: Snapshot, t: Snapshot, config: LoopConfig, confirmed: set<string>, answers: Answers,
                         a: OrchestrationAction)
    requires Distinct(StoryIds(s.stories)) && LeftBy(s, t, AdmittedActions(s, config, confirmed), answers)
    requires RightRoles(AdmittedActions(s, config, confirmed), config.team, answers)
    requires forall b | b in AdmittedActions(s, config, confirmed) && IsAgentLaunch(b) :: answers(b).launch.Some?
    requires a in Outstanding(t, config, confirmed + ConfirmedBy(AdmittedActions(s, config, confirmed), answers))
    ensures a in Outstanding(s, config, confirmed) && a !in AdmittedActions(s, config, confirmed)
  {
    var later := confirmed + ConfirmedBy(AdmittedActions(s, config, confirmed), answers);
    if ChangesStory(a) {
      StoryStaysOutstanding(s, t, config, confirmed, answers, a, later);
    } else {
      OutstandingTeam(t, config, later, a);
      TeamStaysOutstanding(s, t, config, confirmed, answers, a);
      OutstandingTeam(s, config, confirmed, a);
    }
  }

  lemma OutstandingTeam(s: Snapshot, config: LoopConfig, confirmed: set<string>, a: OrchestrationAction)
    requires !ChangesStory(a)
    ensures a in Outstanding(s, config, confirmed) <==> a in TeamActions(s, config.team, confirmed)
  {
  }

  lemma LaunchesReturn(actions: seq<OrchestrationAction>, agents: seq<AgentState>, answers: Answers, identity: Identity)
    requires LaunchesAnswered(actions, agents, answers, identity)
    ensures forall a | a in actions && IsAgentLaunch(a) :: answers(a).launch.Some?
  {
    forall a | a in actions && IsAgentLaunch(a) ensures answers(a).launch.Some? {
      assert LaunchAnswered(a, agents, answers(a), identity);
    }
  }

  /** Nothing becomes recoverable in a tick. */
  lemma RecoverableShrinks(s: Snapshot, t: Snapshot, config: LoopConfig, confirmed: set<string>, answers: Answers,
                           identity: Identity)
    requires Distinct(StoryIds(s.stories)) && LeftBy(s, t, AdmittedActions(s, config, confirmed), answers)
    requires RightRoles(AdmittedActions(s, config, confirmed), config.team, answers)
    requires LaunchesAnswered(AdmittedActions(s, config, confirmed), s.agents, answers, identity)
    ensures var actions := AdmittedActions(s, config, confirmed);
      forall a :: a in Recoverable(t, config, confirmed + ConfirmedBy(actions, answers), identity) ==>
        a in Recoverable(s, config, confirmed, identity) && a !in actions
  {
    var actions := AdmittedActions(s, config, confirmed);
    var later := confirmed + ConfirmedBy(actions, answers);
    LaunchesReturn(actions, s.agents, answers, identity);
    OutstandingAreLaunches(t, config, later);
    forall a | a in Recoverable(t, config, later, identity)
      ensures a in Recoverable(s, config, confirmed, identity) && a !in actions
    {
      StaysOutstanding(s, t, config, confirmed, answers, a);
      OccupiedBefore(s.agents, t.agents, actions, answers, identity, a);
    }
  }

  /** What a tick launches was outstanding. */
  lemma AdmittedWasOutstanding(s: Snapshot, config: LoopConfig, confirmed: set<string>, a: OrchestrationAction)
    requires Distinct(StoryIds(s.stories)) && a in AdmittedActions(s, config, confirmed) && IsAgentLaunch(a)
    ensures a in Outstanding(s, config, confirmed)
  {
    AdmittedShape(s, config, confirmed);
    if a !in TeamActions(s, config.team, confirmed) {
      var stories := Project(s, config.dependencies);
      var i := StatusDecidesAction(stories, s.run.complexity, a);
      assert s.stories[i] in s.stories && stories[i].status == s.stories[i].status;
      if a.AssignReviewer? {
        var k :| 0 <= k < |stories| && stories[k].id == a.storyId && HasNeed(stories[k], Reviewer);
        assert s.stories[k] in s.stories;
      }
    }
  }

  /** A launch that recovers an agent was recoverable. */
  lemma RecoveredWasRecoverable(s: Snapshot, config: LoopConfig, confirmed: set<string>, answers: Answers,
                                identity: Identity, a: OrchestrationAction)
    requires Distinct(StoryIds(s.stories)) && a in AdmittedActions(s, config, confirmed)
    requires LaunchesAnswered(AdmittedActions(s, config, confirmed), s.agents, answers, identity)
    requires Recovers(a, s.agents, answers)
    ensures a in Recoverable(s, config, confirmed, identity)
  {
    AdmittedWasOutstanding(s, config, confirmed, a);
    assert LaunchAnswered(a, s.agents, answers(a), identity);
    var agent :| agent in s.agents && agent.id == answers(a).launch.value.id;
    var i :| 0 <= i < |s.agents| && s.agents[i] == agent;
    assert OccupiedUnder(s.agents, identity(a));
  }

  lemma SmallerSet<T>(small: set<T>, large: set<T>)
    requires small <= large
    ensures |small| <= |large|
    ensures forall x :: x in large && x !in small ==> |small| < |large|
  {
    assert large == small + (large - small);
    assert forall x :: x in large && x !in small ==> x in large - small;
  }

  /** A tick never leaves more to recover, and leaves less when it recovers something. */
  lemma RecoveriesAreUsedUp(s: Snapshot, t: Snapshot, config: LoopConfig, confirmed: set<string>, answers: Answers,
                            identity: Identity)
    requires Distinct(StoryIds(s.stories)) && LeftBy(s, t, AdmittedActions(s, config, confirmed), answers)
    requires RightRoles(AdmittedActions(s, config, confirmed), config.team, answers)
    requires LaunchesAnswered(AdmittedActions(s, config, confirmed), s.agents, answers, identity)
    ensures var actions := AdmittedActions(s, config, confirmed);
      var before, after := Recoverable(s, config, confirmed, identity),
                           Recoverable(t, config, confirmed + ConfirmedBy(actions, answers), identity);
      |after| <= |before| && (RecoversSome(actions, s.agents, answers) ==> |after| < |before|)
  {
    var actions := AdmittedActions(s, config, confirmed);
    var before, after := Recoverable(s, config, confirmed, identity),
                         Recoverable(t, config, confirmed + ConfirmedBy(actions, answers), identity);
    RecoverableShrinks(s, t, config, confirmed, answers, identity);
    SmallerSet(after, before);
    if a :| a in actions && Recovers(a, s.agents, answers) {
      RecoveredWasRecoverable(s, config, confirmed, answers, identity, a);
    }
  }

  /** One agent is recovered by at most one launch. */
  lemma OneRecovers(launches: set<OrchestrationAction>, agent: AgentState, identity: Identity)
    requires OneIdPerLaunch(identity)
    requires forall a :: a in launches ==> IsAgentLaunch(a) && identity(a) == agent.id
    ensures |launches| <= 1
  {
    if a :| a in launches {
      assert launches == {a};
    }
  }

  lemma OccupiedLast(agents: seq<AgentState>, id: string)
    requires agents != [] && OccupiedUnder(agents, id) && !OccupiedUnder(agents[..|agents| - 1], id)
    ensures id == agents[|agents| - 1].id && OccupiesAgentCapacity(agents[|agents| - 1].status)
  {
    var init := agents[..|agents| - 1];
    assert forall i :: 0 <= i < |init| ==> init[i] == agents[i];
  }

  /** Different launches recover different agents, so no more can be recovered than hold a slot. */
  lemma {:induction false} RecoverableHoldSlots(launches: set<OrchestrationAction>, agents: seq<AgentState>,
                                                identity: Identity)
    requires OneIdPerLaunch(identity)
    requires forall a :: a in launches ==> IsAgentLaunch(a) && OccupiedUnder(agents, identity(a))
    ensures |launches| <= CountOccupiedAgentSlots(agents)
  {
    if agents == [] {
      assert launches == {};
    } else {
      var init, last := agents[..|agents| - 1], agents[|agents| - 1];
      var rest := set a | a in launches && OccupiedUnder(init, identity(a));
      RecoverableHoldSlots(rest, init, identity);
      forall a | a in launches - rest ensures identity(a) == last.id && OccupiesAgentCapacity(last.status) {
        OccupiedLast(agents, identity(a));
      }
      OneRecovers(launches - rest, last, identity);
      assert launches == rest + (launches - rest);
      assert !OccupiesAgentCapacity(last.status) ==> launches - rest == {};
    }
  }

  // ---------------------------------------------------------------- quiescence

  lemma NothingWarranted(s: Snapshot, config: LoopConfig, a: OrchestrationAction)
    requires NoMergePending(s) && NoCleanupPending(s) && !EveryStoryMerged(s)
    requires !IsAgentLaunch(a)
    ensures !Warranted(Project(s, config.dependencies), s.run.complexity, a)
  {
    var stories := Project(s, config.dependencies);
    forall i | 0 <= i < |stories| ensures !HasNeed(stories[i], Merge) && !HasNeed(stories[i], Cleanup) {
      assert s.stories[i] in s.stories;
    }
    if s.stories != [] {
      var story :| story in s.stories && story.status != StoryStatus.Merged;
      var i :| 0 <= i < |s.stories| && s.stories[i] == story;
      assert stories[i].status == story.status;
    }
  }

  /** A run in this state has nothing for a tick to do. */
  lemma SettledMeansNothingToDo(s: Snapshot, config: LoopConfig, confirmed: set<string>)
    requires NoMergePending(s) && NoCleanupPending(s) && !EveryStoryMerged(s)
    requires LaunchesSettled(s, config, confirmed)
    ensures AdmittedActions(s, config, confirmed) == []
  {
    var actions := AdmittedActions(s, config, confirmed);
    AdmitCount(CandidateActions(s, config, confirmed),
               AvailableSlots(s.run.complexity, CountOccupiedAgentSlots(s.agents)));
    NoLaunches(actions);
    if actions != [] {
      var a := actions[0];
      assert a in actions;
      AdmittedUnlessLaunch(s, config, confirmed, a);
      NothingWarranted(s, config, a);
    }
  }

  lemma CompletesIffMerged(s: Snapshot, config: LoopConfig, confirmed: set<string>)
    ensures CompleteRun in AdmittedActions(s, config, confirmed) <==> EveryStoryMerged(s)
  {
    var stories := Project(s, config.dependencies);
    AdmittedUnlessLaunch(s, config, confirmed, CompleteRun);
    forall i | 0 <= i < |s.stories| ensures stories[i].status == s.stories[i].status && s.stories[i] in s.stories {
    }
  }

  /** A favourable tick succeeds; if it had actions, they were the admitted ones and it left their effects. */
  lemma FavourableTick(s: Snapshot, config: LoopConfig, confirmed: set<string>, env: TickEnv, identity: Identity)
    requires Favourable(Some(s), config, confirmed, env, identity) && !RestsIn(s.run.status)
    ensures var tick, actions := Tick(Some(s), config, confirmed, env), AdmittedActions(s, config, confirmed);
      && tick.result.Ok?
      && (BusyTick(tick) ==>
            && actions != []
            && tick.snapshot.Some? && LeftBy(s, tick.snapshot.value, actions, env.answers)
            && tick.confirmed == confirmed + ConfirmedBy(actions, env.answers)
            && RightRoles(actions, config.team, env.answers)
            && LaunchesAnswered(actions, s.agents, env.answers, identity))
  {
    PlannedActionsAdmitted(s, config, confirmed, env.now);
    AdmittedActionsSucceed(s, config, confirmed, env);
    var plan := PlanTick(Some(s), config, confirmed, env.now).value;
    if plan.Work? {
      var t := TickLeaves(s, config, confirmed, env, identity, plan.started, plan.actions);
    }
  }

  lemma PlannedActionsAdmitted(s: Snapshot, config: LoopConfig, confirmed: set<string>, now: nat)
    requires !RestsIn(s.run.status) && UpToDate(s, now)
    ensures var plan := PlanTick(Some(s), config, confirmed, now);
      plan.Ok? && plan.value.Work? ==> plan.value.actions == AdmittedActions(s, config, confirmed)
  {
    StartedActive(s, now);
    assert Project(Started(s, now).value, config.dependencies) == Project(s, config.dependencies);
  }

  /** How many more ticks than two may pass: one for each agent that a launch could recover while slots are free. */
  function Waiting(s: Snapshot, config: LoopConfig, confirmed: set<string>, identity: Identity): nat {
    if AvailableSlots(s.run.complexity, CountOccupiedAgentSlots(s.agents)) == 0 then 0
    else |Recoverable(s, config, confirmed, identity)|
  }

  /** While a slot is free, fewer agents hold one than the mode allows. */
  lemma WaitingIsBounded(s: Snapshot, config: LoopConfig, confirmed: set<string>, identity: Identity)
    requires OneIdPerLaunch(identity)
    ensures Waiting(s, config, confirmed, identity) < MaximumAgents(s.run.complexity)
  {
    OutstandingAreLaunches(s, config, confirmed);
    RecoverableHoldSlots(Recoverable(s, config, confirmed, identity), s.agents, identity);
  }

  /** After a busy tick no merge is pending, the run is active or complete, and no more can be recovered than before. */
  lemma AfterBusyTick(s: Snapshot, config: LoopConfig, confirmed: set<string>, env: TickEnv, identity: Identity)
    requires Favourable(Some(s), config, confirmed, env, identity) && !RestsIn(s.run.status)
    requires BusyTick(Tick(Some(s), config, confirmed, env))
    ensures var tick := Tick(Some(s), config, confirmed, env);
      && tick.snapshot.Some? && NoMergePending(tick.snapshot.value) && Sound(tick.snapshot.value, config)
      && tick.snapshot.value.run.status in {RunStatus.Active, RunStatus.Completed}
      && tick.snapshot.value.run.complexity == s.run.complexity
      && |Recoverable(tick.snapshot.value, config, tick.confirmed, identity)|
         <= |Recoverable(s, config, confirmed, identity)|
  {
    FavourableTick(s, config, confirmed, env, identity);
    var t := Tick(Some(s), config, confirmed, env).snapshot.value;
    TickMerges(s, t, config, confirmed, env.answers);
    SoundKept(s, t, config, confirmed, env.answers);
    RecoveriesAreUsedUp(s, t, config, confirmed, env.answers, identity);
  }

  /** A tick without free slots launches nothing. */
  lemma RecoveringNeedsASlot(s: Snapshot, config: LoopConfig, confirmed: set<string>, answers: Answers)
    requires RecoversSome(AdmittedActions(s, config, confirmed), s.agents, answers)
    ensures AvailableSlots(s.run.complexity, CountOccupiedAgentSlots(s.agents)) > 0
  {
    AdmitCount(CandidateActions(s, config, confirmed),
               AvailableSlots(s.run.complexity, CountOccupiedAgentSlots(s.agents)));
    NoLaunches(AdmittedActions(s, config, confirmed));
  }

  /** A settled run: complete, or active with nothing left to do. */
  ghost predicate IsQuiet(s: Snapshot, config: LoopConfig, confirmed: set<string>) {
    || s.run.status == RunStatus.Completed
    || (&& s.run.status == RunStatus.Active && AdmittedActions(s, config, confirmed) == [] && CanSchedule(s, config))
  }

  /** A busy tick that found no merge pending and recovers no agent leaves a quiet run. */
  lemma QuietUnlessRecovering(s: Snapshot, config: LoopConfig, confirmed: set<string>, env: TickEnv, identity: Identity)
    requires Favourable(Some(s), config, confirmed, env, identity) && s.run.status == RunStatus.Active
      && NoMergePending(s)
    requires BusyTick(Tick(Some(s), config, confirmed, env))
    requires !RecoversSome(AdmittedActions(s, config, confirmed), s.agents, env.answers)
    ensures var tick := Tick(Some(s), config, confirmed, env);
      tick.snapshot.Some? && IsQuiet(tick.snapshot.value, config, tick.confirmed)
  {
    FavourableTick(s, config, confirmed, env, identity);
    var t := Tick(Some(s), config, confirmed, env).snapshot.value;
    var actions := AdmittedActions(s, config, confirmed);
    LaunchesReturn(actions, s.agents, env.answers, identity);
    TickMerges(s, t, config, confirmed, env.answers);
    TickCleans(s, t, config, confirmed, env.answers);
    TickSettlesLaunches(s, t, config, confirmed, env.answers);
    SoundKept(s, t, config, confirmed, env.answers);
    CompletesIffMerged(s, config, confirmed);
    if t.run.status == RunStatus.Active {
      SettledMeansNothingToDo(t, config, confirmed + ConfirmedBy(actions, env.answers));
    }
  }

  /** After a busy tick that found no merge pending, the run is quiet, or an agent fewer is left to recover. */
  lemma AfterLaterTick(s: Snapshot, config: LoopConfig, confirmed: set<string>, env: TickEnv, identity: Identity)
    requires Favourable(Some(s), config, confirmed, env, identity) && s.run.status == RunStatus.Active
      && NoMergePending(s)
    requires BusyTick(Tick(Some(s), config, confirmed, env))
    ensures var tick := Tick(Some(s), config, confirmed, env);
      tick.snapshot.Some? &&
      (IsQuiet(tick.snapshot.value, config, tick.confirmed)
       || Waiting(tick.snapshot.value, config, tick.confirmed, identity) < Waiting(s, config, confirmed, identity))
  {
    if RecoversSome(AdmittedActions(s, config, confirmed), s.agents, env.answers) {
      FavourableTick(s, config, confirmed, env, identity);
      RecoveringNeedsASlot(s, config, confirmed, env.answers);
      RecoveriesAreUsedUp(s, Tick(Some(s), config, confirmed, env).snapshot.value, config, confirmed, env.answers,
        identity);
    } else {
      QuietUnlessRecovering(s, config, confirmed, env, identity);
    }
  }

  /** The drain starts on a sound snapshot, and the outside world cooperates with every tick. */
  ghost predicate FavourableDrain(trace: Trace, s: Option<Snapshot>, config: LoopConfig, world: World,
                                  identity: Identity) {
    && OneIdPerLaunch(identity)
    && (s.Some? ==> Sound(s.value, config))
    && forall k: nat :: trace(k).result.Ok? ==>
         Cooperates(trace(k).snapshot, config, trace(k).confirmed, world(k), identity)
  }

  /** A story action is admitted only on a story that permits it. */
  lemma AdmittedPermits(s: Snapshot, config: LoopConfig, confirmed: set<string>, a: OrchestrationAction, i: nat)
    requires Distinct(StoryIds(s.stories)) && i < |s.stories|
    requires a in AdmittedActions(s, config, confirmed) && Targets(a, s.stories[i])
    ensures Permits(s.stories[i], a)
  {
    AdmittedShape(s, config, confirmed);
    TeamActionsOnlyLaunch(s, config, confirmed);
    TargetByStatus(s, config, confirmed, a, i);
    if a.AssignReviewer? {
      PermitsNeed(s, config, Reviewer, i);
    } else if a.RequestCleanup? {
      PermitsNeed(s, config, Cleanup, i);
    }
  }

  lemma PermitsNeed(s: Snapshot, config: LoopConfig, need: Need, i: nat)
    requires Distinct(StoryIds(s.stories)) && i < |s.stories|
    requires Warranted(Project(s, config.dependencies), s.run.complexity, ActionFor(need, s.stories[i].id))
    ensures Permits(s.stories[i], ActionFor(need, s.stories[i].id))
  {
    var stories := Project(s, config.dependencies);
    var k :| 0 <= k < |stories| && stories[k].id == s.stories[i].id && HasNeed(stories[k], need);
    assert StoryIds(s.stories)[k] == StoryIds(s.stories)[i];
  }

  lemma EvidenceKept(s: Snapshot, t: Snapshot, config: LoopConfig, confirmed: set<string>, answers: Answers, i: nat)
    requires Sound(s, config) && LeftBy(s, t, AdmittedActions(s, config, confirmed), answers) && i < |s.stories|
    ensures EvidenceInPlace(t.stories[i])
  {
    var actions := AdmittedActions(s, config, confirmed);
    assert s.stories[i] in s.stories && StoryAfter(s.stories[i], t.stories[i], actions, answers);
    if exists a :: a in actions && Targets(a, s.stories[i]) {
      var a :| a in actions && Targets(a, s.stories[i]);
      AdmittedPermits(s, config, confirmed, a, i);
    }
  }

  /** A tick keeps the snapshot sound. */
  lemma SoundKept(s: Snapshot, t: Snapshot, config: LoopConfig, confirmed: set<string>, answers: Answers)
    requires Sound(s, config) && LeftBy(s, t, AdmittedActions(s, config, confirmed), answers)
    ensures Sound(t, config)
  {
    forall story | story in t.stories ensures EvidenceInPlace(story) {
      var i: nat :| i < |t.stories| && t.stories[i] == story;
      EvidenceKept(s, t, config, confirmed, answers, i);
    }
    var before, after := Schedulables(Project(s, config.dependencies)), Schedulables(Project(t, config.dependencies));
    assert Scheduling.Ids(before) == StoryIds(s.stories);
    assert Scheduling.Ids(after) == StoryIds(t.stories);
    forall i | 0 <= i < |after| ensures after[i].dependencies == before[i].dependencies {
      assert StoryIds(t.stories)[i] == StoryIds(s.stories)[i];
    }
  }

  lemma TraceStep(trace: Trace, s: Option<Snapshot>, config: LoopConfig, confirmed: set<string>, world: World, k: nat)
    requires IsTrace(trace, s, config, confirmed, world) && trace(k).result.Ok?
    ensures trace(k + 1) == Tick(trace(k).snapshot, config, trace(k).confirmed, world(k))
  {
    assert trace(k) == AfterTicks(s, config, confirmed, world, k);
    assert trace(k + 1) == AfterTicks(s, config, confirmed, world, k + 1);
  }

  /** A quiet run makes the next tick empty. */
  lemma NextIsEmpty(tick: TickOutcome, config: LoopConfig, env: TickEnv)
    requires tick.snapshot.Some? && IsQuiet(tick.snapshot.value, config, tick.confirmed)
    ensures EmptyTick(Tick(tick.snapshot, config, tick.confirmed, env))
  {
    if tick.snapshot.value.run.status == RunStatus.Active {
    } else {
    }
  }

  /**
   A tick from an active run with no merge pending is empty, or makes the next one
   empty, or uses up an agent to recover.
   */
  lemma LaterTick(trace: Trace, s: Option<Snapshot>, config: LoopConfig, confirmed: set<string>, world: World,
                  identity: Identity, k: nat, t: Snapshot)
    requires IsTrace(trace, s, config, confirmed, world) && FavourableDrain(trace, s, config, world, identity)
    requires trace(k).result.Ok? && trace(k).snapshot == Some(t)
    requires t.run.status == RunStatus.Active && NoMergePending(t) && Sound(t, config)
    ensures EmptyTick(trace(k + 1)) || BusyTick(trace(k + 1))
    ensures BusyTick(trace(k + 1)) ==>
      && trace(k + 1).snapshot.Some?
      && var u := trace(k + 1).snapshot.value;
         || IsQuiet(u, config, trace(k + 1).confirmed)
         || (&& u.run.status == RunStatus.Active && NoMergePending(u) && Sound(u, config)
             && Waiting(u, config, trace(k + 1).confirmed, identity) < Waiting(t, config, trace(k).confirmed, identity))
  {
    TraceStep(trace, s, config, confirmed, world, k);
    assert Cooperates(trace(k).snapshot, config, trace(k).confirmed, world(k), identity);
    FavourableTick(t, config, trace(k).confirmed, world(k), identity);
    if BusyTick(trace(k + 1)) {
      AfterBusyTick(t, config, trace(k).confirmed, world(k), identity);
      AfterLaterTick(t, config, trace(k).confirmed, world(k), identity);
    }
  }

  lemma QuietTick(trace: Trace, s: Option<Snapshot>, config: LoopConfig, confirmed: set<string>, world: World, k: nat)
    requires IsTrace(trace, s, config, confirmed, world) && trace(k).result.Ok?
    requires trace(k).snapshot.Some? && IsQuiet(trace(k).snapshot.value, config, trace(k).confirmed)
    ensures EmptyTick(trace(k + 1))
  {
    TraceStep(trace, s, config, confirmed, world, k);
    NextIsEmpty(trace(k), config, world(k));
  }

  /** From an active run with no merge pending, each busy tick but the last uses up an agent to recover. */
  lemma {:induction false} QuietFrom(trace: Trace, s: Option<Snapshot>, config: LoopConfig, confirmed: set<string>,
                                     world: World, identity: Identity, k: nat, t: Snapshot)
    returns (n: nat)
    requires IsTrace(trace, s, config, confirmed, world) && FavourableDrain(trace, s, config, world, identity)
    requires trace(k).result.Ok? && trace(k).snapshot == Some(t) && BusyThrough(trace, k)
    requires t.run.status == RunStatus.Active && NoMergePending(t) && Sound(t, config)
    ensures k < n <= k + 2 + Waiting(t, config, trace(k).confirmed, identity)
    ensures EmptyTick(trace(n)) && BusyThrough(trace, n - 1)
    decreases Waiting(t, config, trace(k).confirmed, identity)
  {
    LaterTick(trace, s, config, confirmed, world, identity, k, t);
    if EmptyTick(trace(k + 1)) {
      n := k + 1;
    } else if IsQuiet(trace(k + 1).snapshot.value, config, trace(k + 1).confirmed) {
      QuietTick(trace, s, config, confirmed, world, k + 1);
      n := k + 2;
    } else {
      n := QuietFrom(trace, s, config, confirmed, world, identity, k + 1, trace(k + 1).snapshot.value);
    }
  }

  /** The first tick succeeds, and if it is busy it leaves an active run with no merge pending or a completed one. */
  lemma FirstTick(trace: Trace, s: Option<Snapshot>, config: LoopConfig, confirmed: set<string>, world: World,
                  identity: Identity)
    requires IsTrace(trace, s, config, confirmed, world) && FavourableDrain(trace, s, config, world, identity)
    ensures EmptyTick(trace(1)) || (BusyTick(trace(1)) && FirstLeaves(s, config, confirmed, identity, trace(1)))
  {
    StartOfTrace(trace, s, config, confirmed, world);
    TraceStep(trace, s, config, confirmed, world, 0);
    assert Cooperates(trace(0).snapshot, config, trace(0).confirmed, world(0), identity);
    if s.Some? && !RestsIn(s.value.run.status) {
      FavourableTick(s.value, config, confirmed, world(0), identity);
      if BusyTick(trace(1)) {
        AfterBusyTick(s.value, config, confirmed, world(0), identity);
      }
    }
  }

  /**
   The ticks a drain may take: three, and one more for every agent it can recover, of
   which there are fewer than slots.
   */
  function DrainBound(s: Option<Snapshot>, config: LoopConfig, confirmed: set<string>, identity: Identity): nat {
    match s
    case None => 1
    case Some(found) =>
      3 + Least(|Recoverable(found, config, confirmed, identity)|, MaximumAgents(found.run.complexity) - 1)
  }

  /** After a busy first tick, no more ticks wait than the bound allows for. */
  lemma WaitingFitsBound(s: Snapshot, t: Snapshot, config: LoopConfig, confirmed: set<string>, later: set<string>,
                         identity: Identity)
    requires OneIdPerLaunch(identity) && t.run.complexity == s.run.complexity
    requires |Recoverable(t, config, later, identity)| <= |Recoverable(s, config, confirmed, identity)|
    ensures 3 + Waiting(t, config, later, identity) <= DrainBound(Some(s), config, confirmed, identity)
  {
    WaitingIsBounded(t, config, later, identity);
  }

  lemma BoundAllowsThree(s: Snapshot, config: LoopConfig, confirmed: set<string>, identity: Identity)
    ensures DrainBound(Some(s), config, confirmed, identity) >= 3
  {
  }

  /** A busy first tick found a run; it is complete, or active with no merge pending and no more to recover. */
  ghost predicate FirstLeaves(s: Option<Snapshot>, config: LoopConfig, confirmed: set<string>, identity: Identity,
                              first: TickOutcome)
  {
    && s.Some? && first.snapshot.Some?
    && (first.snapshot.value.run.status == RunStatus.Completed
        || (&& first.snapshot.value.run.status == RunStatus.Active
            && NoMergePending(first.snapshot.value) && Sound(first.snapshot.value, config)
            && first.snapshot.value.run.complexity == s.value.run.complexity
            && |Recoverable(first.snapshot.value, config, first.confirmed, identity)|
               <= |Recoverable(s.value, config, confirmed, identity)|))
  }

  /** After a busy first tick the drain is quiet within the bound. */
  lemma EmptyAfterFirst(trace: Trace, s: Option<Snapshot>, config: LoopConfig, confirmed: set<string>, world: World,
                        identity: Identity)
    returns (n: nat)
    requires IsTrace(trace, s, config, confirmed, world) && FavourableDrain(trace, s, config, world, identity)
    requires BusyTick(trace(1)) && FirstLeaves(s, config, confirmed, identity, trace(1))
    ensures 1 <= n <= DrainBound(s, config, confirmed, identity) && EmptyTick(trace(n)) && BusyThrough(trace, n - 1)
  {
    var t := trace(1).snapshot.value;
    if t.run.status == RunStatus.Completed {
      QuietTick(trace, s, config, confirmed, world, 1);
      BoundAllowsThree(s.value, config, confirmed, identity);
      n := 2;
    } else {
      WaitingFitsBound(s.value, t, config, confirmed, trace(1).confirmed, identity);
      n := QuietFrom(trace, s, config, confirmed, world, identity, 1, t);
    }
  }

  /**
   For any number of stories in any mode, one of the first `DrainBound` ticks is empty,
   and those before it are busy.
   */
  lemma EmptyWithinBound(trace: Trace, s: Option<Snapshot>, config: LoopConfig, confirmed: set<string>, world: World,
                         identity: Identity)
    returns (n: nat)
    requires IsTrace(trace, s, config, confirmed, world) && FavourableDrain(trace, s, config, world, identity)
    ensures 1 <= n <= DrainBound(s, config, confirmed, identity) && EmptyTick(trace(n)) && BusyThrough(trace, n - 1)
  {
    FirstTick(trace, s, config, confirmed, world, identity);
    if EmptyTick(trace(1)) {
      n := 1;
    } else {
      n := EmptyAfterFirst(trace, s, config, confirmed, world, identity);
    }
  }

  /** Where no outstanding launch has its agent on record already, the third tick at the latest is empty. */
  lemma EmptyWithinThreeTicks(trace: Trace, s: Option<Snapshot>, config: LoopConfig, confirmed: set<string>,
                              world: World, identity: Identity)
    returns (n: nat)
    requires IsTrace(trace, s, config, confirmed, world) && FavourableDrain(trace, s, config, world, identity)
    requires s.Some? ==> Recoverable(s.value, config, confirmed, identity) == {}
    ensures 1 <= n <= 3 && EmptyTick(trace(n)) && BusyThrough(trace, n - 1)
  {
    n := EmptyWithinBound(trace, s, config, confirmed, world, identity);
  }

  /**
   A drain whose limit is no smaller than the bound returns within the bound;
   the default limit is no smaller in any mode, so it never fails to converge.
   */
  lemma DrainConverges(trace: Trace, s: Option<Snapshot>, config: LoopConfig, confirmed: set<string>, world: World,
                       identity: Identity, maximumTicks: int, r: Result<DrainResult, DrainError>,
                       final: Option<Snapshot>)
    requires IsTrace(trace, s, config, confirmed, world) && FavourableDrain(trace, s, config, world, identity)
    requires maximumTicks >= DrainBound(s, config, confirmed, identity) || maximumTicks == MAX_ORCHESTRATION_DRAIN_TICKS
    requires Drained(trace, maximumTicks, r, final)
    ensures r.Ok? && r.value.ticks <= DrainBound(s, config, confirmed, identity)
  {
    var n := EmptyWithinBound(trace, s, config, confirmed, world, identity);
    assert !BusyTick(trace(n));
  }

  // ---------------------------------------------------------------- slots stay within the mode's limit

  /** Whatever the launches recover or create, the occupied slots stay within the limit, or where they were above it. */
  lemma GrownWithinLimit(s: Snapshot, after: seq<AgentState>, config: LoopConfig, confirmed: set<string>,
                         answers: Answers)
    requires Grown(s.agents, after, AdmittedActions(s, config, confirmed), answers)
    ensures var before, limit := CountOccupiedAgentSlots(s.agents), MaximumAgents(s.run.complexity);
      CountOccupiedAgentSlots(after) <= if before <= limit then limit else before
  {
    var slots := AvailableSlots(s.run.complexity, CountOccupiedAgentSlots(s.agents));
    AdmitCount(CandidateActions(s, config, confirmed), slots);
    NewAtMostLaunches(AdmittedActions(s, config, confirmed), s.agents, answers);
    SlotsTaken(s.agents, after, AdmittedActions(s, config, confirmed), answers);
  }

  /** A tick never takes more slots than the mode has. */
  lemma TickStaysWithinLimit(s: Snapshot, t: Snapshot, config: LoopConfig, confirmed: set<string>, answers: Answers,
                             identity: Identity)
    requires Distinct(StoryIds(s.stories)) && Distinct(AgentIds(s.agents))
    requires LaunchesAnswered(AdmittedActions(s, config, confirmed), s.agents, answers, identity)
    requires ExecuteAll(AdmittedActions(s, config, confirmed), s, answers) == Ok(t)
    ensures var before, limit := CountOccupiedAgentSlots(s.agents), MaximumAgents(s.run.complexity);
      CountOccupiedAgentSlots(t.agents) <= if before <= limit then limit else before
  {
    AdmittedShape(s, config, confirmed);
    LaunchesGrow(AdmittedActions(s, config, confirmed), s, answers, identity);
    GrownWithinLimit(s, t.agents, config, confirmed, answers);
  }

  ghost predicate WithinLimit(s: Snapshot) {
    CountOccupiedAgentSlots(s.agents) <= MaximumAgents(s.run.complexity)
  }

  /** A favourable tick succeeds and leaves a sound snapshot within the limit. */
  lemma TickKeepsLimit(s: Snapshot, config: LoopConfig, confirmed: set<string>, env: TickEnv, identity: Identity)
    requires Favourable(Some(s), config, confirmed, env, identity) && WithinLimit(s)
    ensures var tick := Tick(Some(s), config, confirmed, env);
      tick.result.Ok? && tick.snapshot.Some? && Sound(tick.snapshot.value, config) && WithinLimit(tick.snapshot.value)
  {
    if !RestsIn(s.run.status) {
      PlannedActionsAdmitted(s, config, confirmed, env.now);
      AdmittedActionsSucceed(s, config, confirmed, env);
      var plan := PlanTick(Some(s), config, confirmed, env.now).value;
      if plan.Work? {
        var t := TickLeaves(s, config, confirmed, env, identity, plan.started, plan.actions);
        SoundKept(s, t, config, confirmed, env.answers);
        GrownWithinLimit(s, t.agents, config, confirmed, env.answers);
      }
    }
  }

  /** However many ticks a drain takes, none fails and the occupied slots never exceed the limit. */
  lemma {:induction false} DrainStaysWithinLimit(trace: Trace, s: Snapshot, config: LoopConfig, confirmed: set<string>,
                                                 world: World, identity: Identity, k: nat)
    requires IsTrace(trace, Some(s), config, confirmed, world)
    requires FavourableDrain(trace, Some(s), config, world, identity) && WithinLimit(s)
    ensures trace(k).result.Ok? && trace(k).snapshot.Some?
    ensures Sound(trace(k).snapshot.value, config) && WithinLimit(trace(k).snapshot.value)
  {
    if k == 0 {
      StartOfTrace(trace, Some(s), config, confirmed, world);
    } else {
      DrainStaysWithinLimit(trace, s, config, confirmed, world, identity, k - 1);
      TraceStep(trace, Some(s), config, confirmed, world, k - 1);
      TickKeepsLimit(trace(k - 1).snapshot.value, config, trace(k - 1).confirmed, world(k - 1), identity);
    }
  }
}
