/**
 What parent controls leave behind: for each control, when it is accepted and
 exactly what the stored run, stories and agents are afterwards.
 */
module ControlOutcomes {
  import opened Wrappers
  import opened Graph
  import opened ControllerState
  import opened OrchestrationEffects
  import opened OrchestrationLoop
  import opened DrainQuiescence
  import opened ParentControl
  import opened StateOutcomes
  import opened TickOutcomes

  /** Whatever the control names is on record. */
  ghost predicate KnownTargets(s: Snapshot, control: Control) {
    && (control.agentId.Some? ==> exists agent :: agent in s.agents && agent.id == control.agentId.value)
    && (control.storyId.Some? ==> exists story :: story in s.stories && story.id == control.storyId.value)
  }

  /** A control that names something unknown is refused, whatever it asks for; the agent is looked up first. */
  lemma UnknownTargetsAreRefused(s: Snapshot, control: Control, now: nat, canQuit: bool)
    ensures Decide(s, control, now, canQuit) == Err(UnknownTargetAgent) <==>
            control.agentId.Some? && forall agent :: agent in s.agents ==> agent.id != control.agentId.value
    ensures Decide(s, control, now, canQuit) in {Err(UnknownTargetAgent), Err(UnknownTargetStory)} <==>
            !KnownTargets(s, control)
  {
    if KnownTargets(s, control) {
      KnownTargetsAreFound(s, control, now, canQuit);
    }
  }

  lemma KnownTargetsAreFound(s: Snapshot, control: Control, now: nat, canQuit: bool)
    requires KnownTargets(s, control)
    ensures Decide(s, control, now, canQuit) != Err(UnknownTargetAgent)
    ensures Decide(s, control, now, canQuit) != Err(UnknownTargetStory)
  {
  }

  /** A refused control changes nothing, and an accepted one moves the revision on by one if it changes anything. */
  lemma RefusalsChangeNothing(s: Snapshot, control: Control, now: nat, canQuit: bool)
    ensures var decided := Decide(s, control, now, canQuit);
      var after := AfterControl(s, decided);
      && (decided.Err? ==> after == s)
      && (after.revision == s.revision ==> after == s) && s.revision <= after.revision <= s.revision + 1
  {
  }

  // ---------------------------------------------------------------- deciding a plan

  /** Only the stories that await approval change. */
  ghost predicate OnlyWaitingChange(before: seq<StoryState>, after: seq<StoryState>, to: StoryStatus, now: nat) {
    && |after| == |before|
    && forall i :: 0 <= i < |before| ==>
         after[i] == if before[i].status == StoryStatus.AwaitingApproval
                     then before[i].(status := to, updatedAt := now) else before[i]
  }

  /** No waiting story was changed later than the given time. */
  ghost predicate WaitingUpTo(stories: seq<StoryState>, now: nat) {
    forall i :: 0 <= i < |stories| && stories[i].status == StoryStatus.AwaitingApproval ==> stories[i].updatedAt <= now
  }

  predicate IsPlanTransition(u: StoryTransition, to: StoryStatus) {
    (u.StoryPlanApproved? && to == StoryStatus.Ready) || (u.StoryPlanRevisionRequested? && to == StoryStatus.Planned)
  }

  lemma MapSnoc(stories: seq<StoryState>, last: StoryState, selected: StoryState -> bool, t: StoryTransition)
    ensures var before := MapStories(stories, selected, t);
      var moved := if selected(last) then TransitionStory(last, t) else Ok(last);
      MapStories(stories + [last], selected, t) ==
        if before.Err? then before else if moved.Err? then Err(moved.error) else Ok(before.value + [moved.value])
  {
    assert (stories + [last])[..|stories|] == stories;
  }

  lemma {:induction false} WaitingMapped(stories: seq<StoryState>, u: StoryTransition, to: StoryStatus)
    requires IsPlanTransition(u, to)
    ensures MapStories(stories, AwaitsApproval, u).Ok? <==> WaitingUpTo(stories, u.at)
    ensures MapStories(stories, AwaitsApproval, u).Ok? ==>
            OnlyWaitingChange(stories, MapStories(stories, AwaitsApproval, u).value, to, u.at)
    ensures MapStories(stories, AwaitsApproval, u).Err? ==>
            MapStories(stories, AwaitsApproval, u).error == ClockMovedBackwards
  {
    if stories != [] {
      var init, last := stories[..|stories| - 1], stories[|stories| - 1];
      assert stories == init + [last];
      WaitingMapped(init, u, to);
      MapSnoc(init, last, AwaitsApproval, u);
      assert WaitingUpTo(stories, u.at) ==> WaitingUpTo(init, u.at);
    }
  }

  lemma {:induction false} EventsOfWaiting(action: ControlAction, stories: seq<StoryState>)
    ensures StoryEvents(action, stories, AwaitsApproval) == [] <==>
            forall story :: story in stories ==> story.status != StoryStatus.AwaitingApproval
  {
    if stories != [] {
      var init, last := stories[..|stories| - 1], stories[|stories| - 1];
      assert stories == init + [last];
      EventsOfWaiting(action, init);
      assert last in stories;
    }
  }

  /** The run a plan decision leaves. */
  function DecidedTo(run: RunState, to: RunStatus, now: nat): RunState {
    if run.status == RunStatus.AwaitingApproval then run.(status := to, updatedAt := now) else run
  }

  /** The decision is about a plan that waits for it, or repeats the one already made, on a clock that is not behind. */
  ghost predicate MayDecide(s: Snapshot, to: RunStatus, now: nat) {
    && (s.run.status == to || (s.run.status == RunStatus.AwaitingApproval && s.run.updatedAt <= now))
    && WaitingUpTo(s.stories, now)
  }

  ghost predicate NoneWaits(stories: seq<StoryState>) {
    forall story :: story in stories ==> story.status != StoryStatus.AwaitingApproval
  }

  lemma DecisionOutcome(s: Snapshot, action: ControlAction, runTo: RunStatus, moved: Result<RunState, TransitionError>,
                        u: StoryTransition, storyTo: StoryStatus)
    requires IsPlanTransition(u, storyTo)
    requires s.run.status == RunStatus.AwaitingApproval ==>
      moved == if s.run.updatedAt <= u.at then Ok(DecidedTo(s.run, runTo, u.at)) else Err(ClockMovedBackwards)
    requires runTo != RunStatus.AwaitingApproval
    ensures var decided := DecidePlan(s, action, runTo, moved, u);
      && (decided.Ok? <==> MayDecide(s, runTo, u.at))
      && (decided.Ok? ==>
            && decided.value.run == DecidedTo(s.run, runTo, u.at) && decided.value.agents == s.agents
            && OnlyWaitingChange(s.stories, decided.value.stories, storyTo, u.at)
            && (decided.value.events == [] <==> s.run.status == runTo && NoneWaits(s.stories)))
      && (decided == Err(InvalidState) <==> s.run.status != runTo && s.run.status != RunStatus.AwaitingApproval)
  {
    WaitingMapped(s.stories, u, storyTo);
    EventsOfWaiting(action, s.stories);
  }

  /**
   A plan decision is accepted exactly when the plan waits for it or it was made before. It moves the run and the
   stories that wait, is recorded unless there is nothing to move, and is refused in any other status.
   */
  lemma PlanIsDecided(s: Snapshot, control: Control, now: nat, canQuit: bool)
    requires KnownTargets(s, control) && (control.action == Approve || control.action == Reject)
    ensures var runTo := if control.action == Approve then RunStatus.Ready else RunStatus.Planning;
      var storyTo := if control.action == Approve then StoryStatus.Ready else StoryStatus.Planned;
      var decided := Decide(s, control, now, canQuit);
      && (decided.Ok? <==> MayDecide(s, runTo, now))
      && (decided.Ok? ==>
            && decided.value.run == DecidedTo(s.run, runTo, now) && decided.value.agents == s.agents
            && OnlyWaitingChange(s.stories, decided.value.stories, storyTo, now)
            && (decided.value.events == [] <==> s.run.status == runTo && NoneWaits(s.stories)))
      && (decided == Err(InvalidState) <==> s.run.status != runTo && s.run.status != RunStatus.AwaitingApproval)
  {
    if control.action == Approve {
      DecisionOutcome(s, Approve, RunStatus.Ready, TransitionRun(s.run, PlanApproved(now)),
                      StoryPlanApproved(now), StoryStatus.Ready);
    } else {
      DecisionOutcome(s, Reject, RunStatus.Planning, TransitionRun(s.run, PlanRevisionRequested(now)),
                      StoryPlanRevisionRequested(now), StoryStatus.Planned);
    }
  }

  /** A decision that was made before changes nothing once no story waits. */
  lemma RepeatedDecision(s: Snapshot, control: Control, now: nat, canQuit: bool)
    requires KnownTargets(s, control) && NoneWaits(s.stories)
    requires (control.action == Approve && s.run.status == RunStatus.Ready)
             || (control.action == Reject && s.run.status == RunStatus.Planning)
    ensures Decide(s, control, now, canQuit).Ok? && AfterControl(s, Decide(s, control, now, canQuit)) == s
  {
    PlanIsDecided(s, control, now, canQuit);
  }

  /** A rejected plan goes back to planning with the stories that awaited approval, and no tick starts it. */
  lemma RejectedPlan(s: Snapshot, control: Control, now: nat, canQuit: bool)
    requires KnownTargets(s, control) && control.action == Reject
    requires s.run.status == RunStatus.AwaitingApproval && s.run.updatedAt <= now && WaitingUpTo(s.stories, now)
    ensures var after := AfterControl(s, Decide(s, control, now, canQuit));
      && after.run == s.run.(status := RunStatus.Planning, updatedAt := now) && after.agents == s.agents
      && OnlyWaitingChange(s.stories, after.stories, StoryStatus.Planned, now) && after.revision == s.revision + 1
      && forall config, confirmed, env ::
           Tick(Some(after), config, confirmed, env) == TickOutcome(Ok(TickResult([], false)), Some(after), confirmed)
  {
    PlanIsDecided(s, control, now, canQuit);
    var after := AfterControl(s, Decide(s, control, now, canQuit));
    forall config, confirmed, env
      ensures Tick(Some(after), config, confirmed, env)
              == TickOutcome(Ok(TickResult([], false)), Some(after), confirmed)
    {
      RestsUnlessReadyOrActive(after, config, confirmed, env);
    }
  }

  /** An approved plan is ready with the stories that awaited approval. */
  lemma ApprovedPlan(s: Snapshot, control: Control, now: nat, canQuit: bool)
    requires KnownTargets(s, control) && control.action == Approve
    requires s.run.status == RunStatus.AwaitingApproval && s.run.updatedAt <= now && WaitingUpTo(s.stories, now)
    ensures var after := AfterControl(s, Decide(s, control, now, canQuit));
      && after.run == s.run.(status := RunStatus.Ready, updatedAt := now) && after.agents == s.agents
      && OnlyWaitingChange(s.stories, after.stories, StoryStatus.Ready, now) && after.revision == s.revision + 1
  {
    PlanIsDecided(s, control, now, canQuit);
  }

  /** A plan prepared for approval, sent back and prepared again waits for approval as before, but for its times. */
  lemma RejectedThenPrepared(s: Snapshot, control: Control, now: nat, canQuit: bool, later: nat)
    requires KnownTargets(s, control) && control.action == Reject && !s.run.complexity.HIGH?
    requires s.run.status == RunStatus.AwaitingApproval && s.run.updatedAt <= now <= later
    requires WaitingUpTo(s.stories, now)
    ensures var after := AfterControl(s, Decide(s, control, now, canQuit));
      && TransitionRun(after.run, PlanPrepared(later)) == Ok(s.run.(updatedAt := later))
      && |after.stories| == |s.stories|
      && forall i :: 0 <= i < |s.stories| && s.stories[i].status == StoryStatus.AwaitingApproval ==>
           TransitionStory(after.stories[i], StoryPrepared(later, s.run.complexity))
           == Ok(s.stories[i].(updatedAt := later))
  {
    RejectedPlan(s, control, now, canQuit);
  }

  // ---------------------------------------------------------------- approving one story

  lemma {:induction false} MapNone(stories: seq<StoryState>, id: string, t: StoryTransition)
    requires forall i :: 0 <= i < |stories| ==> stories[i].id != id
    ensures MapStories(stories, Named(id), t) == Ok(stories)
  {
    if stories != [] {
      assert stories == stories[..|stories| - 1] + [stories[|stories| - 1]];
      MapNone(stories[..|stories| - 1], id, t);
    }
  }

  lemma UpdateBefore<T>(init: seq<T>, last: T, k: nat, value: T)
    requires k < |init|
    ensures (init + [last])[k := value] == init[k := value] + [last]
  {
  }

  lemma UpdateLast<T>(init: seq<T>, last: T, value: T)
    ensures (init + [last])[|init| := value] == init + [value]
  {
  }

  lemma IdsBefore(init: seq<StoryState>, last: StoryState)
    requires Distinct(StoryIds(init + [last]))
    ensures Distinct(StoryIds(init)) && forall i :: 0 <= i < |init| ==> init[i].id != last.id
  {
    var ids := StoryIds(init + [last]);
    assert forall i :: 0 <= i < |init| ==> ids[i] == init[i].id && ids[i] != ids[|init|];
  }

  lemma {:induction false} MapOne(stories: seq<StoryState>, k: nat, t: StoryTransition)
    requires Distinct(StoryIds(stories)) && k < |stories|
    ensures var moved := TransitionStory(stories[k], t);
      MapStories(stories, Named(stories[k].id), t)
      == if moved.Ok? then Ok(stories[k := moved.value]) else Err(moved.error)
  {
    var init, last, moved := stories[..|stories| - 1], stories[|stories| - 1], TransitionStory(stories[k], t);
    assert stories == init + [last];
    IdsBefore(init, last);
    MapSnoc(init, last, Named(stories[k].id), t);
    if k < |init| {
      MapOne(init, k, t);
      if moved.Ok? {
        UpdateBefore(init, last, k, moved.value);
      }
    } else {
      MapNone(init, last.id, t);
      if moved.Ok? {
        UpdateLast(init, last, moved.value);
      }
    }
  }

  ghost predicate OthersReady(stories: seq<StoryState>, k: nat) {
    forall i :: 0 <= i < |stories| && i != k ==> stories[i].status == StoryStatus.Ready
  }

  lemma StoryDecided(s: Snapshot, now: nat, k: nat)
    requires Distinct(StoryIds(s.stories)) && k < |s.stories|
    ensures var decided, story := DecideStory(s, Some(s.stories[k]), now), s.stories[k];
      var run := if OthersReady(s.stories, k) then s.run.(status := RunStatus.Ready, updatedAt := now) else s.run;
      if s.run.status != RunStatus.AwaitingApproval || story.status != StoryStatus.AwaitingApproval
      then decided == Err(InvalidState)
      else if now < story.updatedAt || (OthersReady(s.stories, k) && now < s.run.updatedAt)
      then decided == Err(Rejected(ClockMovedBackwards))
      else decided.Ok? && AfterControl(s, decided) ==
             s.(revision := s.revision + 1, run := run,
                stories := s.stories[k := story.(status := StoryStatus.Ready, updatedAt := now)])
  {
    MapOne(s.stories, k, StoryPlanApproved(now));
    NamedEvent(s.stories, k);
    ReadyWithTheOthers(s.stories, k, now);
  }

  /** One waiting story is approved while its run waits, and the run with it exactly when all others are ready. */
  lemma StoryIsApproved(s: Snapshot, control: Control, now: nat, canQuit: bool, k: nat)
    requires KnownTargets(s, control) && control.action == ApproveStory && Distinct(StoryIds(s.stories))
    requires k < |s.stories| && control.storyId == Some(s.stories[k].id)
    ensures var decided, story := Decide(s, control, now, canQuit), s.stories[k];
      var run := if OthersReady(s.stories, k) then s.run.(status := RunStatus.Ready, updatedAt := now) else s.run;
      if s.run.status != RunStatus.AwaitingApproval || story.status != StoryStatus.AwaitingApproval
      then decided == Err(InvalidState)
      else if now < story.updatedAt || (OthersReady(s.stories, k) && now < s.run.updatedAt)
      then decided == Err(Rejected(ClockMovedBackwards))
      else decided.Ok? && AfterControl(s, decided) ==
             s.(revision := s.revision + 1, run := run,
                stories := s.stories[k := story.(status := StoryStatus.Ready, updatedAt := now)])
  {
    FindUnique(s.stories, k);
    StoryDecided(s, now, k);
  }

  lemma ReadyWithTheOthers(stories: seq<StoryState>, k: nat, now: nat)
    requires k < |stories|
    ensures AllReady(stories[k := stories[k].(status := StoryStatus.Ready, updatedAt := now)])
            <==> OthersReady(stories, k)
  {
    var after := stories[k := stories[k].(status := StoryStatus.Ready, updatedAt := now)];
    if AllReady(after) {
      assert forall i :: 0 <= i < |stories| && i != k ==> after[i] == stories[i];
    }
  }

  /** Approving a story asks for one. */
  lemma StoryApprovalAsksForAStory(s: Snapshot, control: Control, now: nat, canQuit: bool)
    requires KnownTargets(s, control) && control.action == ApproveStory && control.storyId.None?
    ensures Decide(s, control, now, canQuit) == Err(InvalidState)
  {
  }

  // ---------------------------------------------------------------- pausing and resuming

  /** A pause blocks a ready or active run with the parent's reason; a blocked run stays as it is. */
  lemma PausedRun(s: Snapshot, control: Control, now: nat, canQuit: bool)
    requires KnownTargets(s, control) && control.action == Pause
    ensures var decided := Decide(s, control, now, canQuit);
      var reason := if control.message.Some? then Trim(control.message.value) else "paused by parent";
      if s.run.status == RunStatus.Blocked then decided.Ok? && AfterControl(s, decided) == s
      else if s.run.status != RunStatus.Ready && s.run.status != RunStatus.Active then decided == Err(InvalidState)
      else if now < s.run.updatedAt then decided == Err(Rejected(ClockMovedBackwards))
      else decided.Ok? && AfterControl(s, decided) ==
             s.(revision := s.revision + 1,
                run := s.run.(status := RunStatus.Blocked, blockedReason := Some(Trim("parent pause: " + reason)),
                              updatedAt := now))
  {
    PauseReasonIsMarked(ReasonText(control.message, "paused by parent"));
  }

  /** A resumed run is active again, unless a parent paused it; then it is ready, and so starts again. */
  lemma ResumedByParent(s: Snapshot, control: Control, now: nat, canQuit: bool)
    requires KnownTargets(s, control) && control.action == Resume
    ensures var decided := Decide(s, control, now, canQuit);
      var pausedByParent := s.run.blockedReason.Some? && "parent pause:" <= s.run.blockedReason.value;
      if s.run.status == RunStatus.Ready || s.run.status == RunStatus.Active
      then decided.Ok? && AfterControl(s, decided) == s
      else if s.run.status != RunStatus.Blocked then decided == Err(InvalidState)
      else if now < s.run.updatedAt then decided == Err(Rejected(ClockMovedBackwards))
      else decided.Ok? && AfterControl(s, decided) ==
             s.(revision := s.revision + 1,
                run := s.run.(status := if pausedByParent then RunStatus.Ready else RunStatus.Active,
                              blockedReason := None, updatedAt := now))
  {
  }

  // ---------------------------------------------------------------- ending the run

  /** The run has ended, whichever way. */
  predicate HasEnded(status: RunStatus) {
    status == RunStatus.Completed || status == RunStatus.Failed || status == RunStatus.Cancelled
  }

  lemma CloseReasonIsText(text: string)
    ensures NonEmpty("parent close: " + text) == Ok(Trim("parent close: " + text))
  {
    var reason := "parent close: " + text;
    assert reason[0] == 'p' && reason[0] in reason;
    NonEmptyUnlessBlank(reason);
  }

  /** Closing a run cancels it with the parent's reason, unless it has ended already. */
  lemma ClosedRun(s: Snapshot, control: Control, now: nat, canQuit: bool)
    requires KnownTargets(s, control) && control.action == Close && control.agentId.None?
    ensures var decided := Decide(s, control, now, canQuit);
      var reason := if control.message.Some? then Trim(control.message.value) else "closed by parent";
      if HasEnded(s.run.status) then decided.Ok? && AfterControl(s, decided) == s
      else if now < s.run.updatedAt then decided == Err(Rejected(ClockMovedBackwards))
      else decided.Ok? && AfterControl(s, decided) ==
             s.(revision := s.revision + 1,
                run := s.run.(status := RunStatus.Cancelled, blockedReason := Some(Trim("parent close: " + reason)),
                              updatedAt := now))
  {
    CloseReasonIsText(ReasonText(control.message, "closed by parent"));
  }

  lemma DismissalReasonIsText()
    ensures NonEmpty(DISMISSED) == Ok(DISMISSED)
  {
    var first, ending := "management dismissed ", "after all agent work completed";
    assert first[0] == 'm' && ending[29] == 'd';
    TrimmedText(DISMISSED, |DISMISSED| - 1);
  }

  /** Dismissing management cancels a run that may be quit, and has neither completed nor been cancelled. */
  lemma DismissedRun(s: Snapshot, control: Control, now: nat, canQuit: bool)
    requires KnownTargets(s, control) && control.action == Dismiss
    ensures var decided := Decide(s, control, now, canQuit);
      if control.agentId.Some? || control.message.Some? then decided == Err(InvalidPayload)
      else if !canQuit then decided == Err(NotQuiescent)
      else if s.run.status == RunStatus.Completed || s.run.status == RunStatus.Cancelled
      then decided.Ok? && AfterControl(s, decided) == s
      else if now < s.run.updatedAt then decided == Err(Rejected(ClockMovedBackwards))
      else if s.run.status == RunStatus.Failed then decided == Err(Rejected(InvalidTransition))
      else decided.Ok? && AfterControl(s, decided) ==
             s.(revision := s.revision + 1,
                run := s.run.(status := RunStatus.Cancelled,
                              blockedReason := Some(DISMISSED), updatedAt := now))
  {
    DismissalReasonIsText();
  }

  /** A pause, a close and a dismissal that change the run halt it, and no tick starts it. */
  lemma HaltingControls(s: Snapshot, control: Control, now: nat, canQuit: bool)
    requires KnownTargets(s, control) && control.action in {Pause, Close, Dismiss}
    requires control.action == Close ==> control.agentId.None?
    ensures var after := AfterControl(s, Decide(s, control, now, canQuit));
      after != s ==>
        && after.run.status == (if control.action == Pause then RunStatus.Blocked else RunStatus.Cancelled)
        && HaltedOver(s, after) && RestsIn(after.run.status)
  {
    if control.action == Pause {
      PausedRun(s, control, now, canQuit);
    } else if control.action == Close {
      ClosedRun(s, control, now, canQuit);
    } else {
      DismissedRun(s, control, now, canQuit);
    }
  }

  /** The halted statuses are those of a run that is blocked, has failed or was cancelled. */
  lemma HaltedRuns(run: RunState, t: RunTransition)
    requires TransitionRun(run, t).Ok?
    ensures IsHalted(TransitionRun(run, t).value.status) <==> t.RunBlocked? || t.RunFailed? || t.RunCancelled?
  {
  }

  // ---------------------------------------------------------------- controls about one agent

  /** Restarting an agent that has not ended takes its pane away, and touches nothing else. */
  lemma RestartedAgent(s: Snapshot, control: Control, now: nat, canQuit: bool, k: nat)
    requires KnownTargets(s, control) && control.action == Restart && Distinct(AgentIds(s.agents))
    requires k < |s.agents| && control.agentId == Some(s.agents[k].id)
    ensures var decided, agent := Decide(s, control, now, canQuit), s.agents[k];
      if control.message.Some? then decided == Err(InvalidPayload)
      else if Ended(agent.status) || agent.status == AgentStatus.Disconnected then decided == Err(InvalidState)
      else if now < agent.updatedAt then decided == Err(Rejected(ClockMovedBackwards))
      else decided.Ok? && AfterControl(s, decided) ==
             s.(revision := s.revision + 1,
                agents := s.agents[k := agent.(status := AgentStatus.Disconnected, paneId := None,
                                               currentOperation := None, waitingReason := None,
                                               blockedReason := Some("Herdr pane disconnected"), updatedAt := now)])
  {
    FindAt(s.agents, k);
    var agent := s.agents[k];
    if TransitionAgent(agent, PaneLost(now)).Ok? {
      UpsertAt(s.agents, TransitionAgent(agent, PaneLost(now)).value, k);
    }
  }

  /** Steering, focusing and closing an agent are recorded, and change nothing else. */
  lemma AgentControlsAreRecorded(s: Snapshot, control: Control, now: nat, canQuit: bool)
    requires KnownTargets(s, control) && control.action in {Steer, Focus, Close} && control.agentId.Some?
    ensures var decided := Decide(s, control, now, canQuit);
      decided.Ok? && AfterControl(s, decided) == s.(revision := s.revision + 1)
  {
  }

  /** Steering, focusing and restarting ask for an agent. */
  lemma AgentControlsAskForAnAgent(s: Snapshot, control: Control, now: nat, canQuit: bool)
    requires KnownTargets(s, control) && control.action in {Steer, Focus, Restart} && control.agentId.None?
    ensures Decide(s, control, now, canQuit) == Err(InvalidPayload)
  {
  }

  // ---------------------------------------------------------------- the answer and the record

  /** The parent is told the revision and the status that are stored afterwards, and the agent as it was. */
  lemma ResponseTellsWhatIsStored(s: Snapshot, control: Control, now: nat, canQuit: bool)
    ensures var decided := Decide(s, control, now, canQuit);
      var after, response := AfterControl(s, decided), Respond(s, control, decided);
      && (response.Ok? <==> decided.Ok?) && (response.Err? ==> response.error == decided.error)
      && (response.Ok? ==>
            && response.value.revision == after.revision && response.value.runStatus == after.run.status
            && response.value.target == if control.agentId.Some? then FindAgent(s.agents, control.agentId.value)
                                        else None)
  {
    if control.action in {Approve, Reject} && Decide(s, control, now, canQuit).Ok? {
      PlanIsDecided(s, control, now, canQuit);
    }
  }

  /** An accepted control is recorded under its own action, against the run, a story that changes, or its agent. */
  lemma EventsNameTheControl(s: Snapshot, control: Control, now: nat, canQuit: bool)
    requires control.action !in {Approve, Reject, ApproveStory} && Decide(s, control, now, canQuit).Ok?
    ensures var events := Decide(s, control, now, canQuit).value.events;
      || events == []
      || (control.agentId.None? && events == [ControlEvent(control.action, RunEntity)])
      || (control.agentId.Some? && control.action in {Steer, Focus, Close, Restart}
          && events == [ControlEvent(control.action, AgentEntity(control.agentId.value))])
      || (control.agentId.Some? && control.action in {Pause, Resume}
          && events == [ControlEvent(control.action, RunEntity)])
  {
  }
}
