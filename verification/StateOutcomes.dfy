/**
 The life cycles behind the transition functions: which status follows which, what
 a transition writes and what it leaves alone, and which detours lead back.
 */
module StateOutcomes {
  import opened Wrappers
  import opened Complexity
  import opened ControllerState

  // ---------------------------------------------------------------- text

  /** The white space of the language: section 12.2 of the ECMAScript specification. */
  predicate IsWhiteSpaceCode(code: int) {
    || code in {0x0009, 0x000B, 0x000C, 0xFEFF}
    || code in {0x0020, 0x00A0, 0x1680, 0x202F, 0x205F, 0x3000} || 0x2000 <= code <= 0x200A
  }

  /** The line terminators of the language: section 12.3 of the ECMAScript specification. */
  predicate IsLineTerminatorCode(code: int) {
    code in {0x000A, 0x000D, 0x2028, 0x2029}
  }

  lemma WhitespaceIsTheLanguages(c: char)
    ensures IsWhitespace(c) <==> IsWhiteSpaceCode(c as int) || IsLineTerminatorCode(c as int)
  {
  }

  predicate IsBlank(s: string) {
    forall c :: c in s ==> IsWhitespace(c)
  }

  lemma {:induction false} StartTrimmed(s: string) returns (front: string)
    ensures s == front + TrimStart(s) && IsBlank(front)
    ensures TrimStart(s) == "" || !IsWhitespace(TrimStart(s)[0])
  {
    if s != "" && IsWhitespace(s[0]) {
      var rest := StartTrimmed(s[1..]);
      front := [s[0]] + rest;
      assert s == [s[0]] + s[1..];
    } else {
      front := "";
    }
  }

  lemma {:induction false} EndTrimmed(s: string) returns (back: string)
    ensures s == TrimEnd(s) + back && IsBlank(back)
    ensures TrimEnd(s) == "" || !IsWhitespace(TrimEnd(s)[|TrimEnd(s)| - 1])
  {
    if s != "" && IsWhitespace(s[|s| - 1]) {
      var rest := EndTrimmed(s[..|s| - 1]);
      back := rest + [s[|s| - 1]];
      assert s == s[..|s| - 1] + [s[|s| - 1]];
    } else {
      back := "";
    }
  }

  /** Trimming takes white space off both ends, and stops at the first other character on each side. */
  lemma TrimTakesTheEnds(s: string) returns (front: string, back: string)
    ensures s == front + Trim(s) + back && IsBlank(front) && IsBlank(back)
    ensures Trim(s) == "" || (!IsWhitespace(Trim(s)[0]) && !IsWhitespace(Trim(s)[|Trim(s)| - 1]))
  {
    front := StartTrimmed(s);
    back := EndTrimmed(TrimStart(s));
    assert front + Trim(s) + back == front + (Trim(s) + back);
    if Trim(s) != "" {
      assert TrimStart(s)[0] == Trim(s)[0];
    }
  }

  /** A text is refused exactly when it is blank, and otherwise kept without the white space around it. */
  lemma NonEmptyUnlessBlank(s: string)
    ensures NonEmpty(s) == if IsBlank(s) then Err(EmptyText) else Ok(Trim(s))
  {
    var front, back := TrimTakesTheEnds(s);
    if Trim(s) != "" {
      assert s[|front|] == Trim(s)[0] && s[|front|] in s;
    } else {
      assert s == front + back;
    }
  }

  // ---------------------------------------------------------------- runs

  /** The statuses a run transition may leave, and the one it leads to. */
  ghost predicate RunMoves(t: RunTransition, run: RunState, to: RunStatus) {
    match t
    case PlanPrepared(_) =>
      && run.status == RunStatus.Planning
      && to == if run.complexity == HIGH then RunStatus.Ready else RunStatus.AwaitingApproval
    case PlanApproved(_) => run.status == RunStatus.AwaitingApproval && to == RunStatus.Ready
    case PlanRevisionRequested(_) => run.status == RunStatus.AwaitingApproval && to == RunStatus.Planning
    case RunStarted(_, _) => run.status == RunStatus.Ready && to == RunStatus.Active
    case RunBlocked(_, _) =>
      (run.status == RunStatus.Ready || run.status == RunStatus.Active) && to == RunStatus.Blocked
    case RunResumed(_) => run.status == RunStatus.Blocked && (to == RunStatus.Ready || to == RunStatus.Active)
    case RunCompleted(_, _) => run.status == RunStatus.Active && to == RunStatus.Completed
    case RunFailed(_, _) => InProgress(run.status) && to == RunStatus.Failed
    case RunCancelled(_, _) => InProgress(run.status) && to == RunStatus.Cancelled
  }

  predicate InProgress(status: RunStatus) {
    || status == RunStatus.Planning || status == RunStatus.AwaitingApproval || status == RunStatus.Ready
    || status == RunStatus.Active || status == RunStatus.Blocked
  }

  /** What else a run transition asks for. */
  ghost predicate RunAsks(t: RunTransition) {
    match t
    case RunStarted(_, worktreeReady) => worktreeReady
    case RunBlocked(_, reason) => !IsBlank(reason)
    case RunCompleted(_, unfinished) => unfinished == []
    case RunFailed(_, reason) => !IsBlank(reason)
    case RunCancelled(_, reason) => !IsBlank(reason)
    case _ => true
  }

  function RunReason(t: RunTransition, before: Option<string>): Option<string> {
    match t
    case RunBlocked(_, reason) => Some(Trim(reason))
    case RunFailed(_, reason) => Some(Trim(reason))
    case RunCancelled(_, reason) => Some(Trim(reason))
    case RunResumed(_) => None
    case _ => before
  }

  lemma RunTexts(t: RunTransition)
    ensures t.RunBlocked? || t.RunFailed? || t.RunCancelled? ==>
      NonEmpty(t.reason) == if IsBlank(t.reason) then Err(EmptyText) else Ok(Trim(t.reason))
  {
    if t.RunBlocked? || t.RunFailed? || t.RunCancelled? {
      NonEmptyUnlessBlank(t.reason);
    }
  }

  lemma RunEdgesAreTaken(run: RunState, t: RunTransition, to: RunStatus)
    requires run.updatedAt <= t.at && RunAsks(t) && RunMoves(t, run, to)
    ensures TransitionRun(run, t).Ok?
  {
    RunTexts(t);
  }

  /** A run transition succeeds exactly along its edge, on a clock that is not behind and with what it asks for. */
  lemma RunTransitionsFollowEdges(run: RunState, t: RunTransition)
    ensures TransitionRun(run, t).Ok? <==>
            run.updatedAt <= t.at && RunAsks(t) && exists to :: RunMoves(t, run, to)
    ensures TransitionRun(run, t).Ok? ==>
      var after := TransitionRun(run, t).value;
      && RunMoves(t, run, after.status)
      && after == run.(status := after.status, blockedReason := RunReason(t, run.blockedReason), updatedAt := t.at)
  {
    RunTexts(t);
    if TransitionRun(run, t).Ok? {
      assert RunMoves(t, run, TransitionRun(run, t).value.status);
    } else if run.updatedAt <= t.at && RunAsks(t) && exists to :: RunMoves(t, run, to) {
      var to :| RunMoves(t, run, to);
      RunEdgesAreTaken(run, t, to);
    }
  }

  /** Blocking a run and resuming it leaves it active, unless a parent paused it; then it is ready to start again. */
  lemma ResumedRun(run: RunState, reason: string, at: nat, later: nat)
    requires TransitionRun(run, RunBlocked(at, reason)).Ok? && at <= later
    ensures TransitionRun(TransitionRun(run, RunBlocked(at, reason)).value, RunResumed(later))
            == Ok(run.(status := if "parent pause:" <= Trim(reason) then RunStatus.Ready else RunStatus.Active,
                       blockedReason := None, updatedAt := later))
  {
    NonEmptyUnlessBlank(reason);
  }

  // ---------------------------------------------------------------- stories

  /** The statuses a story transition may leave, and the one it leads to. */
  ghost predicate StoryMoves(t: StoryTransition, story: StoryState, to: StoryStatus) {
    var from := story.status;
    match t
    case StoryPrepared(_, complexity) =>
      && from == StoryStatus.Planned
      && to == if complexity == HIGH then StoryStatus.Ready else StoryStatus.AwaitingApproval
    case StoryPlanApproved(_) => from == StoryStatus.AwaitingApproval && to == StoryStatus.Ready
    case StoryPlanRevisionRequested(_) => from == StoryStatus.AwaitingApproval && to == StoryStatus.Planned
    case StoryAssigned(_, _) => from == StoryStatus.Ready && to == StoryStatus.Assigned
    case StoryWorkStarted(_) =>
      && (from == StoryStatus.Assigned || from == StoryStatus.ChangesRequested || from == StoryStatus.WorkComplete)
      && to == StoryStatus.Working
    case StoryWorkCompleted(_) => from == StoryStatus.Working && to == StoryStatus.WorkComplete
    case StoryReassignmentRequested(_, _, _) =>
      && (from == StoryStatus.Assigned || from == StoryStatus.Working || from == StoryStatus.WorkComplete
          || from == StoryStatus.AwaitingCandidate || from == StoryStatus.ChangesRequested)
      && to == StoryStatus.Ready
    case CandidateRequested(_, _) =>
      (from == StoryStatus.Working || from == StoryStatus.WorkComplete) && to == StoryStatus.AwaitingCandidate
    case CandidateCreated(_, _, _) => from == StoryStatus.AwaitingCandidate && to == StoryStatus.AwaitingReview
    case ReviewApproved(_, _, _, _, _) => from == StoryStatus.AwaitingReview && to == StoryStatus.Approved
    case ReviewChangesRequested(_, _) => from == StoryStatus.AwaitingReview && to == StoryStatus.ChangesRequested
    case ReviewInvalidated(_, _) =>
      (from == StoryStatus.AwaitingReview || from == StoryStatus.Approved) && to == StoryStatus.AwaitingReview
    case MergeStarted(_) => from == StoryStatus.Approved && to == StoryStatus.Merging
    case StoryMerged(_, _) => from == StoryStatus.Merging && to == StoryStatus.Merged
    case StoryBlocked(_, _) =>
      && from != StoryStatus.Blocked && from != StoryStatus.Merged && from != StoryStatus.Failed
      && to == StoryStatus.Blocked
    case StoryResumed(_) => from == StoryStatus.Blocked && story.blockedFrom == Some(to)
    case StoryFailed(_, _) => from != StoryStatus.Merged && from != StoryStatus.Failed && to == StoryStatus.Failed
  }

  /** What else a story transition asks for. */
  ghost predicate StoryAsks(t: StoryTransition, story: StoryState) {
    match t
    case StoryAssigned(_, agentId) => !IsBlank(agentId)
    case StoryReassignmentRequested(_, reason, released) => !IsBlank(reason) && released
    case CandidateRequested(_, released) => released
    case CandidateCreated(_, storyHead, integrationHead) => !IsBlank(storyHead) && !IsBlank(integrationHead)
    case ReviewApproved(_, reviewer, storyHead, integrationHead, checksPassed) =>
      && !IsBlank(reviewer) && checksPassed
      && story.candidateStoryHead == Some(storyHead) && story.reviewedIntegrationHead == Some(integrationHead)
    case ReviewChangesRequested(_, reviewer) => !IsBlank(reviewer)
    case ReviewInvalidated(_, integrationHead) => !IsBlank(integrationHead)
    case StoryMerged(_, mergeHead) => !IsBlank(mergeHead)
    case StoryBlocked(_, reason) => !IsBlank(reason)
    case StoryFailed(_, reason) => !IsBlank(reason)
    case _ => true
  }

  /** The evidence a story transition writes or takes away; everything it does not name stays. */
  function StoryEvidence(t: StoryTransition, story: StoryState): StoryState {
    match t
    case StoryAssigned(_, agentId) => story.(assignedAgentId := Some(Trim(agentId)))
    case StoryWorkStarted(_) => WithoutReview(story)
    case StoryReassignmentRequested(_, _, _) => WithoutReview(story).(assignedAgentId := None, blockedReason := None)
    case CandidateCreated(_, storyHead, integrationHead) =>
      story.(candidateStoryHead := Some(Trim(storyHead)), reviewedIntegrationHead := Some(Trim(integrationHead)),
             reviewerAgentId := None)
    case ReviewApproved(_, reviewer, _, _, _) => story.(reviewerAgentId := Some(Trim(reviewer)))
    case ReviewChangesRequested(_, reviewer) => story.(reviewerAgentId := Some(Trim(reviewer)))
    case ReviewInvalidated(_, integrationHead) =>
      story.(reviewedIntegrationHead := Some(Trim(integrationHead)), reviewerAgentId := None)
    case StoryMerged(_, mergeHead) => story.(mergeHead := Some(Trim(mergeHead)))
    case StoryBlocked(_, reason) => story.(blockedReason := Some(Trim(reason)), blockedFrom := Some(story.status))
    case StoryResumed(_) => story.(blockedReason := None, blockedFrom := None)
    case StoryFailed(_, reason) => story.(blockedReason := Some(Trim(reason)))
    case _ => story
  }

  function WithoutReview(story: StoryState): StoryState {
    story.(candidateStoryHead := None, reviewedIntegrationHead := None, reviewerAgentId := None)
  }

  lemma StoryTexts(t: StoryTransition)
    ensures t.StoryAssigned? ==>
      NonEmpty(t.agentId) == if IsBlank(t.agentId) then Err(EmptyText) else Ok(Trim(t.agentId))
    ensures t.CandidateCreated? || t.ReviewInvalidated? ==>
      NonEmpty(t.integrationHead) == if IsBlank(t.integrationHead) then Err(EmptyText) else Ok(Trim(t.integrationHead))
    ensures t.CandidateCreated? ==>
      NonEmpty(t.storyHead) == if IsBlank(t.storyHead) then Err(EmptyText) else Ok(Trim(t.storyHead))
    ensures t.ReviewApproved? || t.ReviewChangesRequested? ==>
      NonEmpty(t.reviewerAgentId) == if IsBlank(t.reviewerAgentId) then Err(EmptyText) else Ok(Trim(t.reviewerAgentId))
    ensures t.StoryMerged? ==>
      NonEmpty(t.mergeHead) == if IsBlank(t.mergeHead) then Err(EmptyText) else Ok(Trim(t.mergeHead))
    ensures t.StoryBlocked? || t.StoryFailed? || t.StoryReassignmentRequested? ==>
      NonEmpty(t.reason) == if IsBlank(t.reason) then Err(EmptyText) else Ok(Trim(t.reason))
  {
    match t
    case StoryAssigned(_, agentId) => NonEmptyUnlessBlank(agentId);
    case StoryReassignmentRequested(_, reason, _) => NonEmptyUnlessBlank(reason);
    case CandidateCreated(_, storyHead, integrationHead) =>
      NonEmptyUnlessBlank(storyHead);
      NonEmptyUnlessBlank(integrationHead);
    case ReviewApproved(_, reviewer, _, _, _) => NonEmptyUnlessBlank(reviewer);
    case ReviewChangesRequested(_, reviewer) => NonEmptyUnlessBlank(reviewer);
    case ReviewInvalidated(_, integrationHead) => NonEmptyUnlessBlank(integrationHead);
    case StoryMerged(_, mergeHead) => NonEmptyUnlessBlank(mergeHead);
    case StoryBlocked(_, reason) => NonEmptyUnlessBlank(reason);
    case StoryFailed(_, reason) => NonEmptyUnlessBlank(reason);
    case _ =>
  }

  lemma StoryTransitionsLandOnEdges(story: StoryState, t: StoryTransition)
    requires TransitionStory(story, t).Ok?
    ensures story.updatedAt <= t.at && StoryAsks(t, story)
    ensures var after := TransitionStory(story, t).value;
      && StoryMoves(t, story, after.status)
      && after == StoryEvidence(t, story).(status := after.status, updatedAt := t.at)
  {
    StoryTexts(t);
  }

  lemma StoryEdgesAreTaken(story: StoryState, t: StoryTransition, to: StoryStatus)
    requires story.updatedAt <= t.at && StoryAsks(t, story) && StoryMoves(t, story, to)
    ensures TransitionStory(story, t).Ok?
  {
    StoryTexts(t);
  }

  /** A story transition succeeds exactly along its edge, on a clock that is not behind and with what it asks for. */
  lemma StoryTransitionsFollowEdges(story: StoryState, t: StoryTransition)
    ensures TransitionStory(story, t).Ok? <==>
            story.updatedAt <= t.at && StoryAsks(t, story) && exists to :: StoryMoves(t, story, to)
    ensures TransitionStory(story, t).Ok? ==>
      var after := TransitionStory(story, t).value;
      && StoryMoves(t, story, after.status)
      && after == StoryEvidence(t, story).(status := after.status, updatedAt := t.at)
  {
    if TransitionStory(story, t).Ok? {
      StoryTransitionsLandOnEdges(story, t);
    } else if story.updatedAt <= t.at && StoryAsks(t, story) && exists to :: StoryMoves(t, story, to) {
      var to :| StoryMoves(t, story, to);
      StoryEdgesAreTaken(story, t, to);
    }
  }

  /** Blocking a story and resuming it brings it back as it was, but for the time and an older blocking reason. */
  lemma ResumedStory(story: StoryState, reason: string, at: nat, later: nat)
    requires TransitionStory(story, StoryBlocked(at, reason)).Ok? && at <= later
    ensures TransitionStory(TransitionStory(story, StoryBlocked(at, reason)).value, StoryResumed(later))
            == Ok(story.(blockedReason := None, blockedFrom := None, updatedAt := later))
  {
  }

  /** A plan that is sent back is planned again, and what is prepared and approved is ready. */
  lemma PlannedStory(story: StoryState, complexity: ComplexityMode, at: nat, later: nat)
    requires TransitionStory(story, StoryPrepared(at, complexity)).Ok? && at <= later
    ensures var prepared := TransitionStory(story, StoryPrepared(at, complexity)).value;
      if complexity == HIGH then prepared == story.(status := StoryStatus.Ready, updatedAt := at)
      else
        && TransitionStory(prepared, StoryPlanApproved(later))
           == Ok(story.(status := StoryStatus.Ready, updatedAt := later))
        && TransitionStory(prepared, StoryPlanRevisionRequested(later)) == Ok(story.(updatedAt := later))
  {
  }

  // ---------------------------------------------------------------- agents

  /** The statuses an agent transition may leave, and the one it leads to. */
  ghost predicate AgentMoves(t: AgentTransition, from: AgentStatus, to: AgentStatus) {
    match t
    case LaunchRequested(_, _) => from == AgentStatus.Planned && to == AgentStatus.Launching
    case SessionReady(_, _) => from == AgentStatus.Launching && to == AgentStatus.Idle
    case OperationStarted(_, _) => from == AgentStatus.Idle && to == AgentStatus.Working
    case OperationFinished(_) =>
      (from == AgentStatus.Working || from == AgentStatus.Reviewing) && to == AgentStatus.Idle
    case WaitingForInput(_, _) => Busy(from) && to == AgentStatus.Waiting
    case InputReceived(_) => from == AgentStatus.Waiting && to == AgentStatus.Idle
    case AgentBlocked(_, _) => (Busy(from) || from == AgentStatus.Waiting) && to == AgentStatus.Blocked
    case AgentUnblocked(_, _) => from == AgentStatus.Blocked && to == AgentStatus.Working
    case ReviewStarted(_, _) => from == AgentStatus.Idle && to == AgentStatus.Reviewing
    case Heartbeat(_) =>
      && (Busy(from) || from == AgentStatus.Launching || from == AgentStatus.Waiting || from == AgentStatus.Blocked)
      && to == from
    case NudgeSent(_) => from == AgentStatus.Idle && to == AgentStatus.Idle
    case AgentCompleted(_) => Busy(from) && to == AgentStatus.Completed
    case AgentFailed(_, _) => !Ended(from) && to == AgentStatus.Failed
    case PaneLost(_) => !Ended(from) && from != AgentStatus.Disconnected && to == AgentStatus.Disconnected
    case RecoveryRequested(_, _) => from == AgentStatus.Disconnected && to == AgentStatus.Launching
    case AgentClosed(_, _) =>
      && (from == AgentStatus.Completed || from == AgentStatus.Failed || from == AgentStatus.Disconnected)
      && to == AgentStatus.Closed
  }

  /** In its session and not held up. */
  predicate Busy(status: AgentStatus) {
    status == AgentStatus.Idle || status == AgentStatus.Working || status == AgentStatus.Reviewing
  }

  predicate Ended(status: AgentStatus) {
    status == AgentStatus.Completed || status == AgentStatus.Failed || status == AgentStatus.Closed
  }

  /** The text a transition carries. */
  function AgentText(t: AgentTransition): Option<string> {
    match t
    case LaunchRequested(_, pane) => Some(pane)
    case SessionReady(_, path) => Some(path)
    case OperationStarted(_, operation) => Some(operation)
    case WaitingForInput(_, reason) => Some(reason)
    case AgentBlocked(_, reason) => Some(reason)
    case AgentUnblocked(_, operation) => Some(operation)
    case ReviewStarted(_, operation) => Some(operation)
    case AgentFailed(_, reason) => Some(reason)
    case RecoveryRequested(_, pane) => Some(pane)
    case _ => None
  }

  ghost predicate AgentAsks(t: AgentTransition) {
    && (AgentText(t).Some? ==> !IsBlank(AgentText(t).value))
    && (t.AgentClosed? ==> t.writerLeaseReleased)
  }

  lemma AgentTexts(t: AgentTransition)
    ensures AgentText(t).Some? ==>
      NonEmpty(AgentText(t).value)
      == if IsBlank(AgentText(t).value) then Err(EmptyText) else Ok(Trim(AgentText(t).value))
  {
    if AgentText(t).Some? {
      NonEmptyUnlessBlank(AgentText(t).value);
    }
  }

  lemma AgentEdgesAreTaken(agent: AgentState, t: AgentTransition, to: AgentStatus)
    requires agent.updatedAt <= t.at && AgentAsks(t) && AgentMoves(t, agent.status, to)
    ensures TransitionAgent(agent, t).Ok?
  {
    AgentTexts(t);
  }

  /** An agent transition succeeds exactly along its edge, on a clock that is not behind and with what it asks for. */
  lemma AgentTransitionsFollowEdges(agent: AgentState, t: AgentTransition)
    ensures TransitionAgent(agent, t).Ok? <==>
            agent.updatedAt <= t.at && AgentAsks(t) && exists to :: AgentMoves(t, agent.status, to)
    ensures TransitionAgent(agent, t).Ok? ==>
      AgentMoves(t, agent.status, TransitionAgent(agent, t).value.status)
  {
    AgentTexts(t);
    if TransitionAgent(agent, t).Ok? {
      assert AgentMoves(t, agent.status, TransitionAgent(agent, t).value.status);
    } else if agent.updatedAt <= t.at && AgentAsks(t) && exists to :: AgentMoves(t, agent.status, to) {
      var to :| AgentMoves(t, agent.status, to);
      AgentEdgesAreTaken(agent, t, to);
    }
  }

  /** The transitions that count as activity, against which the quiet time runs. */
  predicate IsActivity(t: AgentTransition) {
    || t.SessionReady? || t.OperationStarted? || t.OperationFinished? || t.WaitingForInput? || t.InputReceived?
    || t.AgentBlocked? || t.AgentUnblocked? || t.ReviewStarted? || t.AgentCompleted? || t.AgentFailed?
  }

  /** What a transition does to an agent's place, its session, its nudges and its clocks. */
  lemma AgentKeeps(agent: AgentState, t: AgentTransition)
    requires TransitionAgent(agent, t).Ok?
    ensures var after := TransitionAgent(agent, t).value;
      && after.id == agent.id && after.runId == agent.runId && after.roleRuntimeId == agent.roleRuntimeId
      && after.taskId == agent.taskId && after.updatedAt == t.at
      && after.lastMeaningfulActivityAt == (if IsActivity(t) then t.at else agent.lastMeaningfulActivityAt)
      && after.lastHeartbeatAt == (if t.Heartbeat? || t.SessionReady? then t.at else agent.lastHeartbeatAt)
      && after.lastNudgeAt == (if t.NudgeSent? then Some(t.at) else agent.lastNudgeAt)
      && after.nudgeCount == agent.nudgeCount + (if t.NudgeSent? then 1 else 0)
    ensures var after := TransitionAgent(agent, t).value;
      && after.paneId == (match t
                          case LaunchRequested(_, pane) => Some(Trim(pane))
                          case RecoveryRequested(_, pane) => Some(Trim(pane))
                          case PaneLost(_) => None
                          case AgentClosed(_, _) => None
                          case _ => agent.paneId)
      && after.piSessionPath == (match t
                                 case LaunchRequested(_, _) => None
                                 case SessionReady(_, path) => Some(Trim(path))
                                 case _ => agent.piSessionPath)
  {
    AgentTexts(t);
  }

  /** What a transition says of the operation in hand, what is waited for, and what is in the way. */
  lemma AgentTells(agent: AgentState, t: AgentTransition)
    requires TransitionAgent(agent, t).Ok?
    ensures TransitionAgent(agent, t).value.currentOperation ==
            match t
            case LaunchRequested(_, _) => Some("starting Pi session")
            case RecoveryRequested(_, _) => Some("restoring Pi session")
            case OperationStarted(_, operation) => Some(Trim(operation))
            case AgentUnblocked(_, operation) => Some(Trim(operation))
            case ReviewStarted(_, operation) => Some(Trim(operation))
            case Heartbeat(_) => agent.currentOperation
            case NudgeSent(_) => agent.currentOperation
            case InputReceived(_) => agent.currentOperation
            case _ => None
    ensures TransitionAgent(agent, t).value.waitingReason ==
            match t
            case WaitingForInput(_, reason) => Some(Trim(reason))
            case LaunchRequested(_, _) => None
            case OperationStarted(_, _) => None
            case InputReceived(_) => None
            case AgentBlocked(_, _) => None
            case AgentCompleted(_) => None
            case AgentFailed(_, _) => None
            case PaneLost(_) => None
            case _ => agent.waitingReason
    ensures TransitionAgent(agent, t).value.blockedReason ==
            match t
            case AgentBlocked(_, reason) => Some(Trim(reason))
            case AgentFailed(_, reason) => Some(Trim(reason))
            case PaneLost(_) => Some("Herdr pane disconnected")
            case LaunchRequested(_, _) => None
            case OperationStarted(_, _) => None
            case AgentUnblocked(_, _) => None
            case AgentCompleted(_) => None
            case RecoveryRequested(_, _) => None
            case _ => agent.blockedReason
  {
    AgentTexts(t);
  }

  /** An agent that loses its pane and is restored is idle in its new pane, with its nudges and its task. */
  lemma RestoredAgent(agent: AgentState, pane: string, path: string, lost: nat, asked: nat, ready: nat)
    requires TransitionAgent(agent, PaneLost(lost)).Ok? && lost <= asked <= ready && !IsBlank(pane) && !IsBlank(path)
    ensures var disconnected := TransitionAgent(agent, PaneLost(lost)).value;
      var recovering := TransitionAgent(disconnected, RecoveryRequested(asked, pane));
      && recovering.Ok?
      && TransitionAgent(recovering.value, SessionReady(ready, path))
         == Ok(agent.(status := AgentStatus.Idle, paneId := Some(Trim(pane)), piSessionPath := Some(Trim(path)),
                      currentOperation := None, waitingReason := None, blockedReason := None,
                      lastHeartbeatAt := ready, lastMeaningfulActivityAt := ready, updatedAt := ready))
  {
    NonEmptyUnlessBlank(pane);
    NonEmptyUnlessBlank(path);
  }

  // ---------------------------------------------------------------- refusals

  /** A clock that is behind is always the reason given, and never given otherwise. */
  lemma ClockIsBlamedIff(run: RunState, story: StoryState, agent: AgentState, r: RunTransition, u: StoryTransition,
                         t: AgentTransition)
    ensures TransitionRun(run, r) == Err(ClockMovedBackwards) <==> r.at < run.updatedAt
    ensures TransitionStory(story, u) == Err(ClockMovedBackwards) <==> u.at < story.updatedAt
    ensures TransitionAgent(agent, t) == Err(ClockMovedBackwards) <==> t.at < agent.updatedAt
  {
    RunClock(run, r);
    StoryClock(story, u);
    AgentClock(agent, t);
  }

  lemma RunClock(run: RunState, t: RunTransition)
    ensures TransitionRun(run, t) == Err(ClockMovedBackwards) <==> t.at < run.updatedAt
  {
  }

  lemma StoryClock(story: StoryState, t: StoryTransition)
    ensures TransitionStory(story, t) == Err(ClockMovedBackwards) <==> t.at < story.updatedAt
  {
  }

  lemma AgentClock(agent: AgentState, t: AgentTransition)
    ensures TransitionAgent(agent, t) == Err(ClockMovedBackwards) <==> t.at < agent.updatedAt
  {
  }

  /** On a clock that is not behind, a transition off its edge is invalid before its text is looked at. */
  lemma OffTheEdgeIsInvalid(story: StoryState, t: StoryTransition)
    requires story.updatedAt <= t.at && forall to :: !StoryMoves(t, story, to)
    ensures TransitionStory(story, t) == Err(InvalidTransition)
  {
    StoryClock(story, t);
    StoryTransitionsFollowEdges(story, t);
    if TransitionStory(story, t) == Err(EmptyText) {
      EmptyOnTheEdge(story, t);
    }
  }

  lemma EmptyOnTheEdge(story: StoryState, t: StoryTransition)
    requires TransitionStory(story, t) == Err(EmptyText)
    ensures exists to :: StoryMoves(t, story, to)
  {
    match t
    case StoryAssigned(_, _) => assert StoryMoves(t, story, StoryStatus.Assigned);
    case StoryReassignmentRequested(_, _, _) => assert StoryMoves(t, story, StoryStatus.Ready);
    case CandidateCreated(_, _, _) => assert StoryMoves(t, story, StoryStatus.AwaitingReview);
    case ReviewApproved(_, _, _, _, _) => assert StoryMoves(t, story, StoryStatus.Approved);
    case ReviewChangesRequested(_, _) => assert StoryMoves(t, story, StoryStatus.ChangesRequested);
    case ReviewInvalidated(_, _) => assert StoryMoves(t, story, StoryStatus.AwaitingReview);
    case StoryMerged(_, _) => assert StoryMoves(t, story, StoryStatus.Merged);
    case StoryBlocked(_, _) => assert StoryMoves(t, story, StoryStatus.Blocked);
    case StoryFailed(_, _) => assert StoryMoves(t, story, StoryStatus.Failed);
  }
}
