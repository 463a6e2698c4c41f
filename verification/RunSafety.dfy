/**
 Safety of whole runs: under every interleaving of orchestration ticks, child
 messages, parent controls, agent-only commits and story controls, merged work
 carries exactly the evidence of its last approval, dependencies come first, and
 nothing ever moves out of merged.
 */
module RunSafety {
  import opened Wrappers
  import opened Graph
  import opened ControllerState
  import opened ControllerRepository
  import opened Scheduling
  import opened Orchestration
  import opened OrchestrationEffects
  import opened OrchestrationLoop
  import opened AgentMessages
  import opened AgentLifecycle
  import PC = ParentControl
  import DQ = DrainQuiescence
  import Recovery

  // ---------------------------------------------------------------- runs

  /** What an approving review said, kept apart from the story it approved. */
  datatype Approval = Approval(writer: Option<string>, reviewer: string, candidate: string, integration: string)

  /** A run, together with the last approval each of its stories received. */
  datatype TrackedRun = TrackedRun(snapshot: Snapshot, approvals: map<string, Approval>)

  datatype RunStep =
    | TickStep(confirmed: set<string>, env: TickEnv)
    | ChildStep(leases: Leases, message: AgentMessage, lifecycleEnv: LifecycleEnv)
    | ControlStep(control: PC.Control, now: nat, canQuit: bool)
    | AgentsStep(agents: seq<AgentState>)
    | StoryStep(storyId: string, transition: StoryTransition)

  /** The transitions that block, resume, fail, reassign or invalidate a story outside ticks and reviews. */
  predicate IsStoryControl(t: StoryTransition) {
    t.StoryBlocked? || t.StoryResumed? || t.StoryFailed? || t.StoryReassignmentRequested? || t.ReviewInvalidated?
  }

  /**
   Only agents change underneath a tick, and reviewers' ids survive trimming, as every
   id of the agent factory does.
   */
  predicate StepAllowed(s: Snapshot, step: RunStep) {
    match step
    case TickStep(_, env) =>
      && (env.latest.Some? ==> env.latest.value.stories == s.stories)
      && (env.latestAgain.Some? ==> env.latestAgain.value.stories == s.stories)
    case ChildStep(_, message, _) => IsNormalized(message.agentId)
    case StoryStep(_, t) => IsStoryControl(t)
    case _ => true
  }

  function StoryControlled(s: Snapshot, id: string, t: StoryTransition): Snapshot {
    match FindStory(s.stories, id)
    case None => s
    case Some(story) =>
      match TransitionStory(story, t)
      case Err(_) => s
      case Ok(updated) => s.(revision := s.revision + 1, stories := ReplaceStory(s.stories, updated))
  }

  function SnapshotAfter(s: Snapshot, config: LoopConfig, step: RunStep): Snapshot {
    match step
    case TickStep(confirmed, env) =>
      var after := Tick(Some(s), config, confirmed, env).snapshot;
      if after.Some? then after.value else s
    case ChildStep(leases, message, env) => Carried(s, s, Decide(s, leases, message, env).verdict)
    case ControlStep(control, now, canQuit) => PC.AfterControl(s, PC.Decide(s, control, now, canQuit))
    case AgentsStep(agents) => s.(revision := s.revision + 1, agents := agents)
    case StoryStep(id, t) => StoryControlled(s, id, t)
  }

  /** An approving review is remembered as the message and the story's writer gave it. */
  function ApprovalsAfter(r: TrackedRun, step: RunStep): map<string, Approval> {
    if step.ChildStep? && step.message.body.ReviewSubmitted? then
      var verdict := Decide(r.snapshot, step.leases, step.message, step.lifecycleEnv).verdict;
      var agent := FindAgent(r.snapshot.agents, step.message.agentId);
      if verdict.Write? && verdict.action == ReviewApprovedAction && agent.Some?
         && StoryForTask(r.snapshot, agent.value).Some?
      then
        var story := StoryForTask(r.snapshot, agent.value).value;
        r.approvals[story.id := Approval(story.assignedAgentId, step.message.agentId,
                                         step.message.body.candidateStoryHead, step.message.body.integrationHead)]
      else r.approvals
    else r.approvals
  }

  function After(r: TrackedRun, config: LoopConfig, step: RunStep): TrackedRun {
    TrackedRun(SnapshotAfter(r.snapshot, config, step), ApprovalsAfter(r, step))
  }

  function Run(r: TrackedRun, config: LoopConfig, steps: seq<RunStep>): TrackedRun {
    if steps == [] then r else After(Run(r, config, steps[..|steps| - 1]), config, steps[|steps| - 1])
  }

  ghost predicate Allowed(r: TrackedRun, config: LoopConfig, steps: seq<RunStep>) {
    steps == [] || (
      && Allowed(r, config, steps[..|steps| - 1])
      && StepAllowed(Run(r, config, steps[..|steps| - 1]).snapshot, steps[|steps| - 1]))
  }

  // ---------------------------------------------------------------- the invariant

  /** The status a story has, or returns to when it is unblocked. */
  function Effective(story: StoryState): StoryStatus {
    if story.status == StoryStatus.Blocked && story.blockedFrom.Some? then story.blockedFrom.value else story.status
  }

  predicate HasWriter(status: StoryStatus) {
    status in {StoryStatus.Assigned, StoryStatus.Working, StoryStatus.WorkComplete, StoryStatus.AwaitingReview,
               StoryStatus.ChangesRequested, StoryStatus.Approved, StoryStatus.Merged}
  }

  ghost predicate CarriesApproval(story: StoryState, approvals: map<string, Approval>) {
    && story.id in approvals
    && var approval := approvals[story.id];
       && story.assignedAgentId == approval.writer
       && story.reviewerAgentId == Some(approval.reviewer)
       && story.candidateStoryHead == Some(approval.candidate)
       && story.reviewedIntegrationHead == Some(approval.integration)
       && approval.writer.Some? && approval.writer != Some(approval.reviewer)
  }

  ghost predicate StoryOk(story: StoryState, approvals: map<string, Approval>) {
    && Effective(story) !in {StoryStatus.Blocked, StoryStatus.AwaitingCandidate, StoryStatus.Merging}
    && (story.status == StoryStatus.Blocked ==>
          Effective(story) !in {StoryStatus.Merged, StoryStatus.Failed})
    && (HasWriter(Effective(story)) ==> story.assignedAgentId.Some?)
    && (Effective(story) == StoryStatus.AwaitingReview ==>
          story.candidateStoryHead.Some? && story.reviewedIntegrationHead.Some?)
    && (Effective(story) in {StoryStatus.Approved, StoryStatus.Merged} ==> CarriesApproval(story, approvals))
    && (story.status == StoryStatus.Merged ==> story.mergeHead.Some?)
    && (story.workspaceCleaned ==> story.status == StoryStatus.Merged)
  }

  ghost predicate MergedId(stories: seq<StoryState>, id: string) {
    exists story :: story in stories && story.id == id && story.status == StoryStatus.Merged
  }

  /** A story with a writer has all its dependencies merged. */
  ghost predicate DependenciesFirst(story: StoryState, stories: seq<StoryState>, dependencies: Dependencies) {
    story.assignedAgentId.Some? ==> forall d :: d in DependenciesOf(dependencies, story.id) ==> MergedId(stories, d)
  }

  ghost predicate Safe(r: TrackedRun, config: LoopConfig) {
    var stories := r.snapshot.stories;
    && Distinct(StoryIds(stories))
    && (forall story :: story in stories ==> StoryOk(story, r.approvals))
    && (forall story :: story in stories ==> DependenciesFirst(story, stories, config.dependencies))
  }

  /** Merged work is final: only its workspace can still be cleaned up. */
  ghost predicate StaysMerged(before: StoryState, after: StoryState) {
    before.status == StoryStatus.Merged ==>
      && after == before.(workspaceCleaned := after.workspaceCleaned, updatedAt := after.updatedAt)
      && (before.workspaceCleaned ==> after.workspaceCleaned)
  }

  ghost predicate MergedIsFinal(before: seq<StoryState>, after: seq<StoryState>) {
    && StoryIds(after) == StoryIds(before)
    && forall i :: 0 <= i < |before| ==> StaysMerged(before[i], after[i])
  }

  // ---------------------------------------------------------------- one story through a tick

  /** The story shows exactly the effect of the action that names it, if any does. */
  ghost predicate Affected(before: StoryState, after: StoryState, actions: seq<OrchestrationAction>, answers: Answers) {
    && ((forall a :: a in actions ==> !Targets(a, before)) ==> after == before)
    && forall a :: a in actions && Targets(a, before) ==> StoryEffect(a, before, answers(a)) == Ok(after)
  }

  lemma AffectedSnoc(before: StoryState, middle: StoryState, after: StoryState, init: seq<OrchestrationAction>,
                     last: OrchestrationAction, answers: Answers)
    requires Affected(before, middle, init, answers)
    requires forall a :: a in init ==> Compatible(a, last)
    requires if Targets(last, before) then StoryEffect(last, middle, answers(last)) == Ok(after) else after == middle
    ensures Affected(before, after, init + [last], answers)
  {
    var actions := init + [last];
    forall a | a in actions && Targets(a, before) ensures StoryEffect(a, before, answers(a)) == Ok(after) {
      if a in init {
        assert Compatible(a, last) && !Targets(last, before);
      } else {
        forall b | b in init ensures !Targets(b, before) {
          assert Compatible(b, last);
        }
      }
    }
    assert last in actions;
    if forall a :: a in actions ==> !Targets(a, before) {
      assert forall a :: a in init ==> a in actions;
    }
  }

  lemma {:induction false} TickAffects(actions: seq<OrchestrationAction>, s: Snapshot, answers: Answers, i: nat)
    requires Distinct(StoryIds(s.stories)) && Independent(actions) && i < |s.stories|
    requires ExecuteAll(actions, s, answers).Ok?
    ensures var t := ExecuteAll(actions, s, answers).value;
      && StoryIds(t.stories) == StoryIds(s.stories)
      && Affected(s.stories[i], t.stories[i], actions, answers)
  {
    if actions != [] {
      var init, last := actions[..|actions| - 1], actions[|actions| - 1];
      assert actions == init + [last];
      IndependentSnoc(init, last);
      TickAffects(init, s, answers, i);
      var t := ExecuteAll(init, s, answers).value;
      ExecuteFrame(last, t, answers(last));
      assert StoryIds(t.stories)[i] == StoryIds(s.stories)[i];
      if Targets(last, s.stories[i]) {
        ExecuteOnStory(last, t, answers(last), i);
      }
      AffectedSnoc(s.stories[i], t.stories[i], Execute(last, t, answers(last)).value.stories[i], init, last, answers);
    }
  }

  /** What an admitted action asks of the story it names. */
  predicate Suits(a: OrchestrationAction, story: StoryState) {
    match a
    case AssignReviewer(_) => story.status == StoryStatus.AwaitingReview
    case RequestCleanup(_) => story.status == StoryStatus.Merged
    case AssignStory(_) => story.status in {StoryStatus.Ready, StoryStatus.ChangesRequested}
    case _ => true
  }

  lemma AssignmentKeepsStoryOk(story: StoryState, agentId: string, answer: EffectAnswer,
                               approvals: map<string, Approval>)
    requires StoryOk(story, approvals) && story.status in {StoryStatus.Ready, StoryStatus.ChangesRequested}
    requires AssignedStory(story, agentId, answer).Ok?
    ensures StoryOk(AssignedStory(story, agentId, answer).value, approvals)
  {
  }

  lemma EffectKeepsStoryOk(a: OrchestrationAction, story: StoryState, answer: EffectAnswer,
                           approvals: map<string, Approval>)
    requires StoryOk(story, approvals) && Suits(a, story) && StoryEffect(a, story, answer).Ok?
    ensures var after := StoryEffect(a, story, answer).value;
      StoryOk(after, approvals) && StaysMerged(story, after)
  {
    if a.AssignStory? {
      AssignmentKeepsStoryOk(story, answer.launch.value.id, answer, approvals);
    }
  }

  // ---------------------------------------------------------------- keeping the invariant

  lemma MergedIdStays(before: seq<StoryState>, after: seq<StoryState>, id: string)
    requires MergedIsFinal(before, after) && MergedId(before, id)
    ensures MergedId(after, id)
  {
    var i :| 0 <= i < |before| && before[i].id == id && before[i].status == StoryStatus.Merged;
    assert StaysMerged(before[i], after[i]);
    assert after[i] in after;
  }

  /** A story gains a writer only once its dependencies are merged. */
  ghost predicate WriterEarned(before: StoryState, after: StoryState, stories: seq<StoryState>,
                               dependencies: Dependencies) {
    after.assignedAgentId.Some? && before.assignedAgentId.None? ==>
      forall d :: d in DependenciesOf(dependencies, before.id) ==> MergedId(stories, d)
  }

  /** What one step may do to a story. */
  ghost predicate GoodStep(before: StoryState, after: StoryState, approvals: map<string, Approval>,
                           stories: seq<StoryState>, dependencies: Dependencies) {
    && after.id == before.id && StoryOk(after, approvals) && StaysMerged(before, after)
    && WriterEarned(before, after, stories, dependencies)
  }

  lemma GoodStepsKeepSafe(r: TrackedRun, t: TrackedRun, config: LoopConfig)
    requires Safe(r, config) && |t.snapshot.stories| == |r.snapshot.stories|
    requires forall i :: 0 <= i < |r.snapshot.stories| ==>
      GoodStep(r.snapshot.stories[i], t.snapshot.stories[i], t.approvals, r.snapshot.stories, config.dependencies)
    ensures Safe(t, config) && MergedIsFinal(r.snapshot.stories, t.snapshot.stories)
  {
    var before, after := r.snapshot.stories, t.snapshot.stories;
    assert StoryIds(after) == StoryIds(before);
    forall story | story in after
      ensures StoryOk(story, t.approvals) && DependenciesFirst(story, after, config.dependencies)
    {
      var i :| 0 <= i < |after| && after[i] == story;
      assert before[i] in before && DependenciesFirst(before[i], before, config.dependencies);
      assert GoodStep(before[i], after[i], t.approvals, before, config.dependencies);
      if story.assignedAgentId.Some? {
        forall d | d in DependenciesOf(config.dependencies, story.id) ensures MergedId(after, d) {
          assert MergedId(before, d);
          MergedIdStays(before, after, d);
        }
      }
    }
  }

  lemma SameStoriesKeepSafe(r: TrackedRun, t: TrackedRun, config: LoopConfig)
    requires Safe(r, config) && t.snapshot.stories == r.snapshot.stories && t.approvals == r.approvals
    ensures Safe(t, config) && MergedIsFinal(r.snapshot.stories, t.snapshot.stories)
  {
    forall i | 0 <= i < |r.snapshot.stories|
      ensures GoodStep(r.snapshot.stories[i], t.snapshot.stories[i], t.approvals, r.snapshot.stories,
        config.dependencies)
    {
      assert r.snapshot.stories[i] in r.snapshot.stories;
    }
    GoodStepsKeepSafe(r, t, config);
  }

  ghost predicate SameExcept(before: map<string, Approval>, after: map<string, Approval>, id: string) {
    forall other :: other in before && other != id ==> other in after && after[other] == before[other]
  }

  /** Replacing one story by its good successor is a good step for the whole run. */
  lemma ReplacementKeepsSafe(r: TrackedRun, t: TrackedRun, config: LoopConfig, story: StoryState, updated: StoryState)
    requires Safe(r, config) && story in r.snapshot.stories && updated.id == story.id
    requires t.snapshot.stories == ReplaceStory(r.snapshot.stories, updated)
    requires SameExcept(r.approvals, t.approvals, story.id)
    requires StoryOk(updated, t.approvals) && StaysMerged(story, updated)
    requires updated.assignedAgentId.Some? ==> story.assignedAgentId.Some?
    ensures Safe(t, config) && MergedIsFinal(r.snapshot.stories, t.snapshot.stories)
  {
    var stories := r.snapshot.stories;
    var k :| 0 <= k < |stories| && stories[k] == story;
    ReplaceAt(stories, k, updated);
    forall i | 0 <= i < |stories|
      ensures GoodStep(stories[i], t.snapshot.stories[i], t.approvals, stories, config.dependencies)
    {
      assert stories[i] in stories;
      if i != k {
        assert StoryIds(stories)[i] != StoryIds(stories)[k];
      }
    }
    GoodStepsKeepSafe(r, t, config);
  }

  // ---------------------------------------------------------------- ticks

  lemma ReadyMeansMerged(s: Snapshot, config: LoopConfig, i: nat, d: string)
    requires Distinct(StoryIds(s.stories)) && i < |s.stories|
    requires var schedulables := Schedulables(Project(s, config.dependencies));
      IsReady(schedulables[i], StatusesOf(schedulables))
    requires d in DependenciesOf(config.dependencies, s.stories[i].id)
    ensures MergedId(s.stories, d)
  {
    var schedulables := Schedulables(Project(s, config.dependencies));
    assert Scheduling.Ids(schedulables) == StoryIds(s.stories);
    StatusKeys(schedulables);
    assert HasStatus(StatusesOf(schedulables), d, Done);
    var k := StoryOf(schedulables, d);
    assert s.stories[k] in s.stories && SchedulingStatus(s.stories[k].status) == Done;
  }

  /** A story is assigned only after its dependencies are merged. */
  lemma AssignedAfterDependencies(s: Snapshot, config: LoopConfig, confirmed: set<string>, a: OrchestrationAction,
                                  i: nat)
    requires Distinct(StoryIds(s.stories)) && i < |s.stories|
    requires a in AdmittedActions(s, config, confirmed) && a.AssignStory? && a.storyId == s.stories[i].id
    ensures forall d :: d in DependenciesOf(config.dependencies, a.storyId) ==> MergedId(s.stories, d)
  {
    var stories := Project(s, config.dependencies);
    DQ.AdmittedShape(s, config, confirmed);
    DQ.TeamActionsOnlyLaunch(s, config, confirmed);
    var j := StartableIsReady(stories, s.run.complexity, a.storyId);
    assert StoryIds(s.stories)[j] == StoryIds(s.stories)[i];
    forall d | d in DependenciesOf(config.dependencies, a.storyId) ensures MergedId(s.stories, d) {
      ReadyMeansMerged(s, config, i, d);
    }
  }

  /** An admitted action suits the story it names, and an assignment comes after the dependencies. */
  lemma AdmittedSuits(s: Snapshot, config: LoopConfig, confirmed: set<string>, a: OrchestrationAction, i: nat)
    requires Distinct(StoryIds(s.stories)) && i < |s.stories|
    requires a in AdmittedActions(s, config, confirmed) && Targets(a, s.stories[i])
    ensures Suits(a, s.stories[i])
    ensures a.AssignStory? ==>
      forall d :: d in DependenciesOf(config.dependencies, a.storyId) ==> MergedId(s.stories, d)
  {
    DQ.TargetByStatus(s, config, confirmed, a, i);
    if a.AssignStory? {
      AssignedAfterDependencies(s, config, confirmed, a, i);
    }
  }

  /** The one admitted action that names a story leaves it in good order. */
  lemma NamedStoryIsGood(r: TrackedRun, started: Snapshot, config: LoopConfig, confirmed: set<string>,
                         a: OrchestrationAction, answer: EffectAnswer, i: nat)
    requires Safe(r, config) && started.stories == r.snapshot.stories && i < |started.stories|
    requires a in AdmittedActions(started, config, confirmed) && Targets(a, started.stories[i])
    requires StoryEffect(a, started.stories[i], answer).Ok?
    ensures GoodStep(started.stories[i], StoryEffect(a, started.stories[i], answer).value, r.approvals,
                     started.stories, config.dependencies)
  {
    var story := started.stories[i];
    assert story in r.snapshot.stories;
    AdmittedSuits(started, config, confirmed, a, i);
    EffectKeepsStoryOk(a, story, answer, r.approvals);
    EffectKeepsId(a, story, answer);
  }

  lemma EffectsAreGoodSteps(r: TrackedRun, started: Snapshot, config: LoopConfig, confirmed: set<string>,
                            answers: Answers, t: Snapshot, i: nat)
    requires Safe(r, config) && started.stories == r.snapshot.stories && i < |started.stories|
    requires ExecuteAll(AdmittedActions(started, config, confirmed), started, answers) == Ok(t)
    ensures |t.stories| == |started.stories|
    ensures GoodStep(started.stories[i], t.stories[i], r.approvals, started.stories, config.dependencies)
  {
    var actions := AdmittedActions(started, config, confirmed);
    var story := started.stories[i];
    assert story in r.snapshot.stories;
    DQ.AdmittedShape(started, config, confirmed);
    TickAffects(actions, started, answers, i);
    ExecuteAllLength(actions, started, answers);
    if a :| a in actions && Targets(a, story) {
      NamedStoryIsGood(r, started, config, confirmed, a, answers(a), i);
    }
  }

  lemma CommitStories(s: Snapshot, intended: Snapshot, env: TickEnv)
    requires env.latest.Some? ==> env.latest.value.stories == s.stories
    requires env.latestAgain.Some? ==> env.latestAgain.value.stories == s.stories
    ensures CommitTick(s, intended, env).snapshot.stories in [s.stories, intended.stories]
  {
  }

  lemma PlannedStart(s: Snapshot, config: LoopConfig, confirmed: set<string>, now: nat)
    requires PlanTick(Some(s), config, confirmed, now).Ok? && PlanTick(Some(s), config, confirmed, now).value.Work?
    ensures var plan := PlanTick(Some(s), config, confirmed, now).value;
      plan.started.stories == s.stories && plan.actions == AdmittedActions(plan.started, config, confirmed)
  {
  }

  /** A tick leaves the stories it read, or the effects of its admitted actions on them. */
  lemma TickStories(s: Snapshot, config: LoopConfig, confirmed: set<string>, env: TickEnv)
    returns (started: Snapshot, intended: Snapshot)
    requires StepAllowed(s, TickStep(confirmed, env))
    ensures var t := SnapshotAfter(s, config, TickStep(confirmed, env));
      t.stories == s.stories || (
        && started.stories == s.stories && t.stories == intended.stories
        && ExecuteAll(AdmittedActions(started, config, confirmed), started, env.answers) == Ok(intended))
  {
    started, intended := s, s;
    var plan := PlanTick(Some(s), config, confirmed, env.now);
    if plan.Ok? && plan.value.Work? {
      PlannedStart(s, config, confirmed, env.now);
      started := plan.value.started;
      var effects := ExecuteAll(plan.value.actions, started, env.answers);
      if effects.Ok? {
        intended := effects.value;
        CommitStories(s, intended, env);
      }
    }
  }

  lemma EffectsKeepSafe(r: TrackedRun, t: TrackedRun, started: Snapshot, config: LoopConfig, confirmed: set<string>,
                        answers: Answers, intended: Snapshot)
    requires Safe(r, config) && started.stories == r.snapshot.stories
    requires ExecuteAll(AdmittedActions(started, config, confirmed), started, answers) == Ok(intended)
    requires t.snapshot.stories == intended.stories && t.approvals == r.approvals
    ensures Safe(t, config) && MergedIsFinal(r.snapshot.stories, t.snapshot.stories)
  {
    ExecuteAllLength(AdmittedActions(started, config, confirmed), started, answers);
    forall i | 0 <= i < |started.stories|
      ensures GoodStep(started.stories[i], t.snapshot.stories[i], t.approvals, started.stories, config.dependencies)
    {
      EffectsAreGoodSteps(r, started, config, confirmed, answers, intended, i);
    }
    GoodStepsKeepSafe(r, t, config);
  }

  lemma TickKeepsSafe(r: TrackedRun, t: TrackedRun, config: LoopConfig, confirmed: set<string>, env: TickEnv)
    requires Safe(r, config) && StepAllowed(r.snapshot, TickStep(confirmed, env))
    requires t == After(r, config, TickStep(confirmed, env))
    ensures Safe(t, config) && MergedIsFinal(r.snapshot.stories, t.snapshot.stories)
  {
    var started, intended := TickStories(r.snapshot, config, confirmed, env);
    if t.snapshot.stories == r.snapshot.stories {
      SameStoriesKeepSafe(r, t, config);
    } else {
      EffectsKeepSafe(r, t, started, config, confirmed, env.answers, intended);
    }
  }

  lemma {:induction false} ExecuteAllLength(actions: seq<OrchestrationAction>, s: Snapshot, answers: Answers)
    requires ExecuteAll(actions, s, answers).Ok?
    ensures |ExecuteAll(actions, s, answers).value.stories| == |s.stories|
  {
    if actions != [] {
      var init := actions[..|actions| - 1];
      ExecuteAllLength(init, s, answers);
      ExecuteFrame(actions[|actions| - 1], ExecuteAll(init, s, answers).value, answers(actions[|actions| - 1]));
    }
  }

  // ---------------------------------------------------------------- child messages

  /** One story in good order is followed by another with the same writer, or none. */
  ghost predicate Succeeding(before: StoryState, after: StoryState, approvals: map<string, Approval>) {
    && after.id == before.id && StoryOk(after, approvals) && StaysMerged(before, after)
    && (after.assignedAgentId.Some? ==> after.assignedAgentId == before.assignedAgentId)
  }

  predicate KeepsApprovals(t: StoryTransition) {
    || t.StoryPlanApproved? || t.StoryPlanRevisionRequested? || t.StoryWorkStarted? || t.StoryWorkCompleted?
    || t.ReviewChangesRequested? || IsStoryControl(t)
  }

  lemma TransitionSucceeds(story: StoryState, t: StoryTransition, approvals: map<string, Approval>)
    requires StoryOk(story, approvals) && KeepsApprovals(t) && TransitionStory(story, t).Ok?
    ensures Succeeding(story, TransitionStory(story, t).value, approvals)
  {
  }

  lemma CompletionSucceeds(story: StoryState, env: LifecycleEnv, approvals: map<string, Approval>)
    requires StoryOk(story, approvals) && CompletedStory(story, env).Ok?
    ensures Succeeding(story, CompletedStory(story, env).value, approvals)
  {
    var working := BeginIfAssigned(story, env.firstReading).value;
    if story.status == StoryStatus.Assigned {
      TransitionSucceeds(story, StoryWorkStarted(env.firstReading), approvals);
    }
    TransitionSucceeds(working, StoryWorkCompleted(env.secondReading), approvals);
  }

  lemma CandidateSucceeds(story: StoryState, env: LifecycleEnv, approvals: map<string, Approval>)
    requires StoryOk(story, approvals) && BeginIfAssigned(story, env.firstReading).Ok?
    requires CandidateStory(BeginIfAssigned(story, env.firstReading).value, env).CandidateMade?
    ensures Succeeding(story, CandidateStory(BeginIfAssigned(story, env.firstReading).value, env).story, approvals)
  {
  }

  /** An approval records exactly what the reviewer was shown, by someone other than the writer. */
  lemma ApprovalSucceeds(story: StoryState, agentId: string, candidate: string, integration: string, at: nat,
                         approvals: map<string, Approval>)
    requires StoryOk(story, approvals) && IsNormalized(agentId) && story.assignedAgentId != Some(agentId)
    requires story.candidateStoryHead == Some(candidate) && story.reviewedIntegrationHead == Some(integration)
    requires TransitionStory(story, ReviewApproved(at, agentId, candidate, integration, true)).Ok?
    ensures Succeeding(story, TransitionStory(story, ReviewApproved(at, agentId, candidate, integration, true)).value,
                       approvals[story.id := Approval(story.assignedAgentId, agentId, candidate, integration)])
  {
  }

  /** A writing verdict replaces one story by a good successor, or only touches agents. */
  ghost predicate GoodVerdict(r: TrackedRun, verdict: Verdict, approvals: map<string, Approval>) {
    verdict.Write? ==>
      || (verdict.stories == r.snapshot.stories && approvals == r.approvals)
      || exists story, updated ::
           && story in r.snapshot.stories && verdict.stories == ReplaceStory(r.snapshot.stories, updated)
           && Succeeding(story, updated, approvals)
           && SameExcept(r.approvals, approvals, story.id)
  }

  lemma StartVerdict(r: TrackedRun, config: LoopConfig, leases: Leases, agent: AgentState, env: LifecycleEnv)
    requires Safe(r, config)
    ensures GoodVerdict(r, StartWriterWork(r.snapshot, leases, agent, env), r.approvals)
  {
    var found := StoryForTask(r.snapshot, agent);
    if found.Some? && TransitionStory(found.value, StoryWorkStarted(env.firstReading)).Ok? {
      assert found.value in r.snapshot.stories;
      TransitionSucceeds(found.value, StoryWorkStarted(env.firstReading), r.approvals);
    }
  }

  lemma CompleteVerdict(r: TrackedRun, config: LoopConfig, agent: AgentState, env: LifecycleEnv)
    requires Safe(r, config)
    ensures GoodVerdict(r, CompleteWriterWork(r.snapshot, agent, env), r.approvals)
  {
    var found := StoryForTask(r.snapshot, agent);
    if found.Some? && CompletedStory(found.value, env).Ok? {
      assert found.value in r.snapshot.stories;
      CompletionSucceeds(found.value, env, r.approvals);
    }
  }

  lemma WriterVerdicts(r: TrackedRun, config: LoopConfig, leases: Leases, agent: AgentState, env: LifecycleEnv)
    requires Safe(r, config)
    ensures GoodVerdict(r, StartWriterWork(r.snapshot, leases, agent, env), r.approvals)
    ensures GoodVerdict(r, RenewWriterLease(r.snapshot, leases, agent), r.approvals)
    ensures GoodVerdict(r, CompleteWriterWork(r.snapshot, agent, env), r.approvals)
  {
    StartVerdict(r, config, leases, agent, env);
    CompleteVerdict(r, config, agent, env);
  }

  lemma CandidateWrites(s: Snapshot, leases: Leases, agent: AgentState, env: LifecycleEnv)
    requires CreateCandidate(s, leases, agent, env).verdict.Write?
    ensures var found := StoryForTask(s, agent);
      && found.Some? && BeginIfAssigned(found.value, env.firstReading).Ok?
      && var made := CandidateStory(BeginIfAssigned(found.value, env.firstReading).value, env);
         made.CandidateMade?
         && CreateCandidate(s, leases, agent, env).verdict.stories == ReplaceStory(s.stories, made.story)
  {
  }

  lemma CandidateIsGood(r: TrackedRun, config: LoopConfig, leases: Leases, agent: AgentState, env: LifecycleEnv)
    requires Safe(r, config)
    ensures GoodVerdict(r, CreateCandidate(r.snapshot, leases, agent, env).verdict, r.approvals)
  {
    if CreateCandidate(r.snapshot, leases, agent, env).verdict.Write? {
      CandidateWrites(r.snapshot, leases, agent, env);
      var story := StoryForTask(r.snapshot, agent).value;
      assert story in r.snapshot.stories;
      CandidateSucceeds(story, env, r.approvals);
    }
  }

  /** The approvals after a review decided by `agent`. */
  function ReviewApprovals(r: TrackedRun, agent: AgentState, message: MessageBody, env: LifecycleEnv)
    : map<string, Approval>
    requires message.ReviewSubmitted?
  {
    var verdict := RecordReview(r.snapshot, agent, message, env);
    var story := StoryForTask(r.snapshot, agent);
    if verdict.Write? && verdict.action == ReviewApprovedAction && story.Some? then
      r.approvals[story.value.id := Approval(story.value.assignedAgentId, agent.id,
                                             message.candidateStoryHead, message.integrationHead)]
    else r.approvals
  }

  lemma ReviewVerdict(r: TrackedRun, config: LoopConfig, agent: AgentState, message: MessageBody, env: LifecycleEnv)
    requires Safe(r, config) && IsNormalized(agent.id) && message.ReviewSubmitted?
    ensures GoodVerdict(r, RecordReview(r.snapshot, agent, message, env), ReviewApprovals(r, agent, message, env))
  {
    var verdict := RecordReview(r.snapshot, agent, message, env);
    if verdict.Write? {
      var story := StoryForTask(r.snapshot, agent).value;
      assert story in r.snapshot.stories;
      if verdict.action == ReviewApprovedAction {
        ApprovalSucceeds(story, agent.id, message.candidateStoryHead, message.integrationHead, env.firstReading,
          r.approvals);
      } else {
        TransitionSucceeds(story, ReviewChangesRequested(env.firstReading, agent.id), r.approvals);
      }
    }
  }

  lemma ClosingKeepsStories(s: Snapshot, leases: Leases, agent: AgentState, env: LifecycleEnv)
    ensures CloseSettledAgent(s, leases, agent, env).Write? ==>
              CloseSettledAgent(s, leases, agent, env).stories == s.stories
              && CloseSettledAgent(s, leases, agent, env).action == AgentClosedAction
  {
  }

  lemma DecisionIsGood(r: TrackedRun, config: LoopConfig, leases: Leases, message: AgentMessage, env: LifecycleEnv)
    requires Safe(r, config) && IsNormalized(message.agentId)
    ensures GoodVerdict(r, Decide(r.snapshot, leases, message, env).verdict,
                        ApprovalsAfter(r, ChildStep(leases, message, env)))
  {
    var found := FindAgent(r.snapshot.agents, message.agentId);
    if found.Some? && MayProceed(found.value, message.body, env) {
      var agent := found.value;
      match message.body
      case CandidateReady => CandidateIsGood(r, config, leases, agent, env);
      case ReviewSubmitted(_, _, _) => ReviewVerdict(r, config, agent, message.body, env);
      case SessionShutdown => ClosingKeepsStories(r.snapshot, leases, agent, env);
      case _ => WriterVerdicts(r, config, leases, agent, env);
    }
  }

  lemma GoodVerdictKeepsSafe(r: TrackedRun, t: TrackedRun, config: LoopConfig, verdict: Verdict)
    requires Safe(r, config) && GoodVerdict(r, verdict, t.approvals)
    requires if verdict.Write? then t.snapshot.stories == verdict.stories
             else t.snapshot == r.snapshot && t.approvals == r.approvals
    ensures Safe(t, config) && MergedIsFinal(r.snapshot.stories, t.snapshot.stories)
  {
    if verdict.Write? && !(verdict.stories == r.snapshot.stories && t.approvals == r.approvals) {
      var story, updated :| story in r.snapshot.stories
        && verdict.stories == ReplaceStory(r.snapshot.stories, updated)
        && Succeeding(story, updated, t.approvals) && SameExcept(r.approvals, t.approvals, story.id);
      ReplacementKeepsSafe(r, t, config, story, updated);
    } else {
      SameStoriesKeepSafe(r, t, config);
    }
  }

  lemma ChildKeepsSafe(r: TrackedRun, t: TrackedRun, config: LoopConfig, leases: Leases, message: AgentMessage,
                       env: LifecycleEnv)
    requires Safe(r, config) && IsNormalized(message.agentId)
    requires t == After(r, config, ChildStep(leases, message, env))
    ensures Safe(t, config) && MergedIsFinal(r.snapshot.stories, t.snapshot.stories)
  {
    DecisionIsGood(r, config, leases, message, env);
    GoodVerdictKeepsSafe(r, t, config, Decide(r.snapshot, leases, message, env).verdict);
  }

  // ---------------------------------------------------------------- parent and story controls

  lemma StoryControlKeepsSafe(r: TrackedRun, t: TrackedRun, config: LoopConfig, id: string, transition: StoryTransition)
    requires Safe(r, config) && IsStoryControl(transition)
    requires t == TrackedRun(StoryControlled(r.snapshot, id, transition), r.approvals)
    ensures Safe(t, config) && MergedIsFinal(r.snapshot.stories, t.snapshot.stories)
  {
    var found := FindStory(r.snapshot.stories, id);
    if found.Some? && TransitionStory(found.value, transition).Ok? {
      TransitionSucceeds(found.value, transition, r.approvals);
      ReplacementKeepsSafe(r, t, config, found.value, TransitionStory(found.value, transition).value);
    } else {
      SameStoriesKeepSafe(r, t, config);
    }
  }

  lemma {:induction false} MapStoriesAt(stories: seq<StoryState>, selected: StoryState -> bool, t: StoryTransition,
                                        i: nat)
    requires PC.MapStories(stories, selected, t).Ok? && i < |stories|
    ensures var mapped := PC.MapStories(stories, selected, t).value;
      && |mapped| == |stories|
      && (mapped[i] == stories[i] || TransitionStory(stories[i], t) == Ok(mapped[i]))
  {
    var init := stories[..|stories| - 1];
    if i < |init| {
      MapStoriesAt(init, selected, t, i);
    } else if init != [] {
      MapStoriesAt(init, selected, t, 0);
    }
  }

  lemma MappedKeepSafe(r: TrackedRun, t: TrackedRun, config: LoopConfig, selected: StoryState -> bool,
                       u: StoryTransition)
    requires Safe(r, config) && KeepsApprovals(u) && t.approvals == r.approvals
    requires PC.MapStories(r.snapshot.stories, selected, u) == Ok(t.snapshot.stories)
    ensures Safe(t, config) && MergedIsFinal(r.snapshot.stories, t.snapshot.stories)
  {
    var stories := r.snapshot.stories;
    forall i | 0 <= i < |stories|
      ensures |t.snapshot.stories| == |stories|
      ensures GoodStep(stories[i], t.snapshot.stories[i], t.approvals, stories, config.dependencies)
    {
      MapStoriesAt(stories, selected, u, i);
      assert stories[i] in stories;
      if t.snapshot.stories[i] != stories[i] {
        TransitionSucceeds(stories[i], u, r.approvals);
      }
    }
    GoodStepsKeepSafe(r, t, config);
  }

  lemma ControlKeepsSafe(r: TrackedRun, t: TrackedRun, config: LoopConfig, control: PC.Control, now: nat, canQuit: bool)
    requires Safe(r, config)
    requires t == TrackedRun(PC.AfterControl(r.snapshot, PC.Decide(r.snapshot, control, now, canQuit)), r.approvals)
    ensures Safe(t, config) && MergedIsFinal(r.snapshot.stories, t.snapshot.stories)
  {
    if t.snapshot.stories == r.snapshot.stories {
      SameStoriesKeepSafe(r, t, config);
    } else if control.action == PC.Approve {
      MappedKeepSafe(r, t, config, PC.AwaitsApproval, StoryPlanApproved(now));
    } else if control.action == PC.Reject {
      MappedKeepSafe(r, t, config, PC.AwaitsApproval, StoryPlanRevisionRequested(now));
    } else if control.action == PC.ApproveStory {
      var story := FindStory(r.snapshot.stories, control.storyId.value).value;
      MappedKeepSafe(r, t, config, PC.Named(story.id), StoryPlanApproved(now));
    }
  }

  // ---------------------------------------------------------------- whole runs

  lemma StepKeepsSafe(r: TrackedRun, config: LoopConfig, step: RunStep)
    requires Safe(r, config) && StepAllowed(r.snapshot, step)
    ensures Safe(After(r, config, step), config)
    ensures MergedIsFinal(r.snapshot.stories, After(r, config, step).snapshot.stories)
  {
    var t := After(r, config, step);
    match step
    case TickStep(confirmed, env) => TickKeepsSafe(r, t, config, confirmed, env);
    case ChildStep(leases, message, env) => ChildKeepsSafe(r, t, config, leases, message, env);
    case ControlStep(control, now, canQuit) => ControlKeepsSafe(r, t, config, control, now, canQuit);
    case AgentsStep(_) => SameStoriesKeepSafe(r, t, config);
    case StoryStep(id, transition) => StoryControlKeepsSafe(r, t, config, id, transition);
  }

  /** A run whose stories nobody has worked on, however far its plan has been approved. */
  ghost predicate Initial(r: TrackedRun) {
    && r.approvals == map[] && Distinct(StoryIds(r.snapshot.stories))
    && forall story :: story in r.snapshot.stories ==>
         story.status in {StoryStatus.Planned, StoryStatus.AwaitingApproval, StoryStatus.Ready}
         && story.assignedAgentId.None? && !story.workspaceCleaned
  }

  /** Every state of every run from an initial one is safe. */
  lemma {:induction false} RunsAreSafe(r: TrackedRun, config: LoopConfig, steps: seq<RunStep>)
    requires Initial(r) && Allowed(r, config, steps)
    ensures Safe(Run(r, config, steps), config)
  {
    if steps != [] {
      RunsAreSafe(r, config, steps[..|steps| - 1]);
      StepKeepsSafe(Run(r, config, steps[..|steps| - 1]), config, steps[|steps| - 1]);
    }
  }

  /** Whatever happens later in a run, merged work keeps its writer, its reviewer and its reviewed heads. */
  lemma {:induction false} MergedWorkIsFinal(r: TrackedRun, config: LoopConfig, steps: seq<RunStep>, n: nat)
    requires Initial(r) && Allowed(r, config, steps) && n <= |steps|
    ensures MergedIsFinal(Run(r, config, steps[..n]).snapshot.stories, Run(r, config, steps).snapshot.stories)
    decreases |steps|
  {
    if n == |steps| {
      assert steps[..n] == steps;
    } else {
      var init := steps[..|steps| - 1];
      assert init[..n] == steps[..n];
      MergedWorkIsFinal(r, config, init, n);
      RunsAreSafe(r, config, init);
      StepKeepsSafe(Run(r, config, init), config, steps[|steps| - 1]);
    }
  }

  // ---------------------------------------------------------------- what safety means

  /**
   In every reachable state: merged work was reviewed by someone other than its
   writer, and carries exactly the heads of its last approving review; a story
   with a writer has all its dependencies merged; and no committed story is in
   the middle of a candidate commit or a merge, so recovery never finds one.
   */
  lemma ReachableRuns(r: TrackedRun, config: LoopConfig, steps: seq<RunStep>)
    requires Initial(r) && Allowed(r, config, steps)
    ensures var t := Run(r, config, steps);
      && (forall story :: story in t.snapshot.stories && story.status == StoryStatus.Merged ==>
            story.mergeHead.Some? && CarriesApproval(story, t.approvals))
      && (forall story :: story in t.snapshot.stories ==>
            DependenciesFirst(story, t.snapshot.stories, config.dependencies))
      && (forall story :: story in t.snapshot.stories ==>
            Effective(story) !in {StoryStatus.AwaitingCandidate, StoryStatus.Merging})
      && Recovery.StoryReasons(t.snapshot.stories) == []
  {
    RunsAreSafe(r, config, steps);
    Recovery.StoryReasonsEmpty(Run(r, config, steps).snapshot.stories);
  }

  lemma SchedulableByIds(s: Snapshot, t: Snapshot, config: LoopConfig)
    requires StoryIds(t.stories) == StoryIds(s.stories) && CanSchedule(s, config)
    ensures CanSchedule(t, config)
  {
    var a, b := Schedulables(Project(s, config.dependencies)), Schedulables(Project(t, config.dependencies));
    assert |t.stories| == |StoryIds(t.stories)|;
    assert Scheduling.Ids(a) == StoryIds(s.stories) && Scheduling.Ids(b) == StoryIds(t.stories);
    forall i | 0 <= i < |b| ensures forall d | d in b[i].dependencies :: d in Scheduling.Ids(b) {
      assert StoryIds(t.stories)[i] == StoryIds(s.stories)[i];
      assert b[i].dependencies == a[i].dependencies;
    }
  }

  /**
   In every reachable state of a run with closed dependencies, a tick whose
   external effects succeed meets no invalid transition and no guard of its own:
   everything it admitted is carried out.
   */
  lemma ReachableTicksSucceed(r: TrackedRun, config: LoopConfig, steps: seq<RunStep>, confirmed: set<string>,
                              env: TickEnv)
    requires Initial(r) && Allowed(r, config, steps) && CanSchedule(r.snapshot, config)
    requires var s := Run(r, config, steps).snapshot;
      && !RestsIn(s.run.status) && UpToDate(s, env.now)
      && var plan := PlanTick(Some(s), config, confirmed, env.now);
         plan.Ok? && plan.value.Work? ==> DQ.EffectsSucceed(s, plan.value.actions, env)
    ensures var s := Run(r, config, steps).snapshot;
      var plan := PlanTick(Some(s), config, confirmed, env.now);
      && plan.Ok?
      && (plan.value.Work? ==>
            var done := ExecuteAll(plan.value.actions, plan.value.started, env.answers);
            done.Ok? && Reached(plan.value.actions, plan.value.started, done.value, env.answers))
  {
    var s := Run(r, config, steps).snapshot;
    RunsAreSafe(r, config, steps);
    MergedWorkIsFinal(r, config, steps, 0);
    assert steps[..0] == [];
    SchedulableByIds(r.snapshot, s, config);
    DQ.AdmittedActionsSucceed(s, config, confirmed, env);
  }

  // ---------------------------------------------------------------- reviewers' ids

  /** An approval names a reviewer other than the writer exactly when trimming the reviewer's id leaves it so. */
  lemma ReviewerDiffersIffTrimmedDiffers(s: Snapshot, agent: AgentState, message: MessageBody, env: LifecycleEnv)
    requires message.ReviewSubmitted? && RecordReview(s, agent, message, env).Write?
    requires RecordReview(s, agent, message, env).action == ReviewApprovedAction
    ensures var reviewed := StoryForTask(s, agent).value;
      exists story :: story in RecordReview(s, agent, message, env).stories && story.id == reviewed.id
        && story.status == StoryStatus.Approved && story.assignedAgentId == reviewed.assignedAgentId
        && (story.reviewerAgentId != story.assignedAgentId <==> reviewed.assignedAgentId != Some(Trim(agent.id)))
  {
    var reviewed := StoryForTask(s, agent).value;
    var k :| 0 <= k < |s.stories| && s.stories[k] == reviewed;
    var story := RecordReview(s, agent, message, env).stories[k];
    assert story in RecordReview(s, agent, message, env).stories;
  }

  /** The transition alone would let ids that differ in surrounding white space name the writer as its reviewer. */
  lemma UntrimmedReviewerIsTheWriter()
    ensures var story := CreateStoryState("s", 0).(status := StoryStatus.AwaitingReview, assignedAgentId := Some("w"),
              candidateStoryHead := Some("c"), reviewedIntegrationHead := Some("i"));
      TransitionStory(story, ReviewApproved(0, " w", "c", "i", true))
      == Ok(story.(status := StoryStatus.Approved, reviewerAgentId := Some("w")))
  {
    assert TrimStart(" w") == TrimStart("w") == "w";
    assert Trim(" w") == "w";
  }

  /** The ids that the agent factory makes, of digits, hex letters, dashes and a retry mark, survive trimming. */
  lemma FactoryIdsSurviveTrimming(id: string)
    requires id != "" && forall c :: c in id ==> c in "0123456789abcdef-retry"
    ensures IsNormalized(id)
  {
    forall c | c in "0123456789abcdef-retry" ensures !IsWhitespace(c) {
    }
    assert id[0] in id && id[|id| - 1] in id;
    TrimmedText(id, |id| - 1);
  }
}
