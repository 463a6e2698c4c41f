/**
 The controller's persisted entities and their transition functions. A source
 function that throws returns Err here; a returned record is a new value, never
 an update of the old one. Fields that no decision reads (titles, paths, branch
 names) are not modelled.
 */
module ControllerState {
  import opened Wrappers
  import opened Complexity

  datatype TransitionError = InvalidTransition | ClockMovedBackwards | EmptyText

  datatype RunStatus =
    | Planning | AwaitingApproval | Ready | Active | Blocked | Completed | Failed | Cancelled

  datatype StoryStatus =
    | Planned | AwaitingApproval | Ready | Assigned | Working | WorkComplete
    | AwaitingCandidate | AwaitingReview | ChangesRequested | Approved
    | Merging | Merged | Blocked | Failed

  datatype AgentStatus =
    | Planned | Launching | Idle | Working | Waiting | Blocked | Reviewing
    | Completed | Failed | Disconnected | Closed

  datatype RunState = RunState(
    id: string,
    complexity: ComplexityMode,
    status: RunStatus,
    blockedReason: Option<string>,
    updatedAt: nat)

  datatype StoryState = StoryState(
    id: string,
    status: StoryStatus,
    assignedAgentId: Option<string>,
    candidateStoryHead: Option<string>,
    reviewedIntegrationHead: Option<string>,
    reviewerAgentId: Option<string>,
    mergeHead: Option<string>,
    workspaceCleaned: bool,
    blockedReason: Option<string>,
    blockedFrom: Option<StoryStatus>,
    updatedAt: nat)

  datatype AgentState = AgentState(
    id: string,
    runId: string,
    roleRuntimeId: string,
    status: AgentStatus,
    taskId: Option<string>,
    paneId: Option<string>,
    piSessionPath: Option<string>,
    currentOperation: Option<string>,
    waitingReason: Option<string>,
    blockedReason: Option<string>,
    nudgeCount: nat,
    lastNudgeAt: Option<nat>,
    lastHeartbeatAt: nat,
    lastMeaningfulActivityAt: nat,
    updatedAt: nat)

  datatype Snapshot = Snapshot(
    revision: nat,
    run: RunState,
    stories: seq<StoryState>,
    agents: seq<AgentState>)

  // ---------------------------------------------------------------- text and time

  /** White space and line terminators that the language's own trim removes. */
  predicate IsWhitespace(c: char) {
    var code := c as int;
    || 0x09 <= code <= 0x0D
    || code in {0x20, 0xA0, 0x1680, 0x2028, 0x2029, 0x202F, 0x205F, 0x3000, 0xFEFF}
    || 0x2000 <= code <= 0x200A
  }

  function TrimStart(s: string): string {
    if s != "" && IsWhitespace(s[0]) then TrimStart(s[1..]) else s
  }

  function TrimEnd(s: string): string {
    if s != "" && IsWhitespace(s[|s| - 1]) then TrimEnd(s[..|s| - 1]) else s
  }

  function Trim(s: string): string {
    TrimEnd(TrimStart(s))
  }

  function NonEmpty(value: string): Result<string, TransitionError> {
    var normalized := Trim(value);
    if normalized == "" then Err(EmptyText) else Ok(normalized)
  }

  /** Text that validation returns unchanged. */
  predicate IsNormalized(s: string) {
    NonEmpty(s) == Ok(s)
  }

  lemma TrimmedText(s: string, last: nat)
    requires |s| == last + 1 && !IsWhitespace(s[0]) && !IsWhitespace(s[last])
    ensures IsNormalized(s)
  {
  }

  function ForwardTime(updatedAt: nat, at: nat): Result<nat, TransitionError> {
    if at < updatedAt then Err(ClockMovedBackwards) else Ok(at)
  }

  function Require(condition: bool): Result<bool, TransitionError> {
    if condition then Ok(true) else Err(InvalidTransition)
  }

  // ---------------------------------------------------------------- runs

  datatype RunTransition =
    | PlanPrepared(at: nat)
    | PlanApproved(at: nat)
    | PlanRevisionRequested(at: nat)
    | RunStarted(at: nat, integrationWorktreeReady: bool)
    | RunBlocked(at: nat, reason: string)
    | RunResumed(at: nat)
    | RunCompleted(at: nat, unfinishedStoryIds: seq<string>)
    | RunFailed(at: nat, reason: string)
    | RunCancelled(at: nat, reason: string)

  predicate IsTerminal(status: RunStatus) {
    status in {RunStatus.Completed, RunStatus.Failed, RunStatus.Cancelled}
  }

  const PARENT_PAUSE := "parent pause:"

  function TransitionRun(current: RunState, t: RunTransition): Result<RunState, TransitionError> {
    var at :- ForwardTime(current.updatedAt, t.at);
    match t
    case PlanPrepared(_) =>
      var _ :- Require(current.status == RunStatus.Planning);
      Ok(current.(status := if RequiresPlanConfirmation(current.complexity)
                            then RunStatus.AwaitingApproval else RunStatus.Ready,
                  updatedAt := at))
    case PlanApproved(_) =>
      var _ :- Require(current.status == RunStatus.AwaitingApproval);
      Ok(current.(status := RunStatus.Ready, updatedAt := at))
    case PlanRevisionRequested(_) =>
      var _ :- Require(current.status == RunStatus.AwaitingApproval);
      Ok(current.(status := RunStatus.Planning, updatedAt := at))
    case RunStarted(_, worktreeReady) =>
      var _ :- Require(current.status == RunStatus.Ready && worktreeReady);
      Ok(current.(status := RunStatus.Active, updatedAt := at))
    case RunBlocked(_, reason) =>
      var _ :- Require(current.status in {RunStatus.Ready, RunStatus.Active});
      var text :- NonEmpty(reason);
      Ok(current.(status := RunStatus.Blocked, blockedReason := Some(text), updatedAt := at))
    case RunResumed(_) =>
      var _ :- Require(current.status == RunStatus.Blocked);
      var pausedByParent := current.blockedReason.Some? && PARENT_PAUSE <= current.blockedReason.value;
      Ok(current.(status := if pausedByParent then RunStatus.Ready else RunStatus.Active,
                  blockedReason := None, updatedAt := at))
    case RunCompleted(_, unfinished) =>
      var _ :- Require(current.status == RunStatus.Active && unfinished == []);
      Ok(current.(status := RunStatus.Completed, updatedAt := at))
    case RunFailed(_, reason) =>
      var _ :- Require(!IsTerminal(current.status));
      var text :- NonEmpty(reason);
      Ok(current.(status := RunStatus.Failed, blockedReason := Some(text), updatedAt := at))
    case RunCancelled(_, reason) =>
      var _ :- Require(!IsTerminal(current.status));
      var text :- NonEmpty(reason);
      Ok(current.(status := RunStatus.Cancelled, blockedReason := Some(text), updatedAt := at))
  }

  // ---------------------------------------------------------------- stories

  datatype StoryTransition =
    | StoryPrepared(at: nat, complexity: ComplexityMode)
    | StoryPlanApproved(at: nat)
    | StoryPlanRevisionRequested(at: nat)
    | StoryAssigned(at: nat, agentId: string)
    | StoryWorkStarted(at: nat)
    | StoryWorkCompleted(at: nat)
    | StoryReassignmentRequested(at: nat, reason: string, writerLeaseReleased: bool)
    | CandidateRequested(at: nat, writerLeaseReleased: bool)
    | CandidateCreated(at: nat, storyHead: string, integrationHead: string)
    | ReviewApproved(at: nat, reviewerAgentId: string, storyHead: string,
                     integrationHead: string, checksPassed: bool)
    | ReviewChangesRequested(at: nat, reviewerAgentId: string)
    | ReviewInvalidated(at: nat, integrationHead: string)
    | MergeStarted(at: nat)
    | StoryMerged(at: nat, mergeHead: string)
    | StoryBlocked(at: nat, reason: string)
    | StoryResumed(at: nat)
    | StoryFailed(at: nat, reason: string)

  function CreateStoryState(id: string, createdAt: nat): StoryState {
    StoryState(id, StoryStatus.Planned, None, None, None, None, None, false, None, None, createdAt)
  }

  function TransitionStory(current: StoryState, t: StoryTransition): Result<StoryState, TransitionError> {
    var at :- ForwardTime(current.updatedAt, t.at);
    match t
    case StoryPrepared(_, complexity) =>
      var _ :- Require(current.status == StoryStatus.Planned);
      Ok(current.(status := if RequiresPlanConfirmation(complexity)
                            then StoryStatus.AwaitingApproval else StoryStatus.Ready,
                  updatedAt := at))
    case StoryPlanApproved(_) =>
      var _ :- Require(current.status == StoryStatus.AwaitingApproval);
      Ok(current.(status := StoryStatus.Ready, updatedAt := at))
    case StoryPlanRevisionRequested(_) =>
      var _ :- Require(current.status == StoryStatus.AwaitingApproval);
      Ok(current.(status := StoryStatus.Planned, updatedAt := at))
    case StoryAssigned(_, agentId) =>
      var _ :- Require(current.status == StoryStatus.Ready);
      var assignee :- NonEmpty(agentId);
      Ok(current.(status := StoryStatus.Assigned, assignedAgentId := Some(assignee), updatedAt := at))
    case StoryWorkStarted(_) =>
      var _ :- Require(current.status in {StoryStatus.Assigned, StoryStatus.ChangesRequested,
                                          StoryStatus.WorkComplete});
      Ok(current.(status := StoryStatus.Working, candidateStoryHead := None,
                  reviewedIntegrationHead := None, reviewerAgentId := None, updatedAt := at))
    case StoryWorkCompleted(_) =>
      var _ :- Require(current.status == StoryStatus.Working);
      Ok(current.(status := StoryStatus.WorkComplete, updatedAt := at))
    case StoryReassignmentRequested(_, reason, leaseReleased) =>
      var _ :- Require(current.status in {StoryStatus.Assigned, StoryStatus.Working,
                                          StoryStatus.WorkComplete, StoryStatus.AwaitingCandidate,
                                          StoryStatus.ChangesRequested}
                       && leaseReleased);
      var _ :- NonEmpty(reason);
      Ok(current.(status := StoryStatus.Ready, assignedAgentId := None, candidateStoryHead := None,
                  reviewedIntegrationHead := None, reviewerAgentId := None,
                  blockedReason := None, updatedAt := at))
    case CandidateRequested(_, leaseReleased) =>
      var _ :- Require(current.status in {StoryStatus.Working, StoryStatus.WorkComplete}
                       && leaseReleased);
      Ok(current.(status := StoryStatus.AwaitingCandidate, updatedAt := at))
    case CandidateCreated(_, storyHead, integrationHead) =>
      var _ :- Require(current.status == StoryStatus.AwaitingCandidate);
      var candidate :- NonEmpty(storyHead);
      var base :- NonEmpty(integrationHead);
      Ok(current.(status := StoryStatus.AwaitingReview, candidateStoryHead := Some(candidate),
                  reviewedIntegrationHead := Some(base), reviewerAgentId := None, updatedAt := at))
    case ReviewApproved(_, reviewer, storyHead, integrationHead, checksPassed) =>
      var _ :- Require(current.status == StoryStatus.AwaitingReview && checksPassed
                       && current.candidateStoryHead == Some(storyHead)
                       && current.reviewedIntegrationHead == Some(integrationHead));
      var reviewedBy :- NonEmpty(reviewer);
      Ok(current.(status := StoryStatus.Approved, reviewerAgentId := Some(reviewedBy), updatedAt := at))
    case ReviewChangesRequested(_, reviewer) =>
      var _ :- Require(current.status == StoryStatus.AwaitingReview);
      var reviewedBy :- NonEmpty(reviewer);
      Ok(current.(status := StoryStatus.ChangesRequested, reviewerAgentId := Some(reviewedBy),
                  updatedAt := at))
    case ReviewInvalidated(_, integrationHead) =>
      var _ :- Require(current.status in {StoryStatus.AwaitingReview, StoryStatus.Approved});
      var base :- NonEmpty(integrationHead);
      Ok(current.(status := StoryStatus.AwaitingReview, reviewedIntegrationHead := Some(base),
                  reviewerAgentId := None, updatedAt := at))
    case MergeStarted(_) =>
      var _ :- Require(current.status == StoryStatus.Approved);
      Ok(current.(status := StoryStatus.Merging, updatedAt := at))
    case StoryMerged(_, mergeHead) =>
      var _ :- Require(current.status == StoryStatus.Merging);
      var head :- NonEmpty(mergeHead);
      Ok(current.(status := StoryStatus.Merged, mergeHead := Some(head), updatedAt := at))
    case StoryBlocked(_, reason) =>
      var _ :- Require(current.status !in {StoryStatus.Blocked, StoryStatus.Merged, StoryStatus.Failed});
      var text :- NonEmpty(reason);
      Ok(current.(status := StoryStatus.Blocked, blockedFrom := Some(current.status),
                  blockedReason := Some(text), updatedAt := at))
    case StoryResumed(_) =>
      var _ :- Require(current.status == StoryStatus.Blocked && current.blockedFrom.Some?);
      Ok(current.(status := current.blockedFrom.value, blockedFrom := None,
                  blockedReason := None, updatedAt := at))
    case StoryFailed(_, reason) =>
      var _ :- Require(current.status !in {StoryStatus.Merged, StoryStatus.Failed});
      var text :- NonEmpty(reason);
      Ok(current.(status := StoryStatus.Failed, blockedReason := Some(text), updatedAt := at))
  }

  // ---------------------------------------------------------------- agents

  datatype AgentTransition =
    | LaunchRequested(at: nat, paneId: string)
    | SessionReady(at: nat, piSessionPath: string)
    | OperationStarted(at: nat, operation: string)
    | OperationFinished(at: nat)
    | WaitingForInput(at: nat, reason: string)
    | InputReceived(at: nat)
    | AgentBlocked(at: nat, reason: string)
    | AgentUnblocked(at: nat, operation: string)
    | ReviewStarted(at: nat, operation: string)
    | Heartbeat(at: nat)
    | NudgeSent(at: nat)
    | AgentCompleted(at: nat)
    | AgentFailed(at: nat, reason: string)
    | PaneLost(at: nat)
    | RecoveryRequested(at: nat, paneId: string)
    | AgentClosed(at: nat, writerLeaseReleased: bool)

  function CreateAgentState(id: string, runId: string, roleRuntimeId: string, taskId: Option<string>,
                            createdAt: nat): AgentState {
    AgentState(id, runId, roleRuntimeId, AgentStatus.Planned, taskId, None, None, None, None, None,
               0, None, createdAt, createdAt, createdAt)
  }

  function TransitionAgent(current: AgentState, t: AgentTransition): Result<AgentState, TransitionError> {
    var at :- ForwardTime(current.updatedAt, t.at);
    match t
    case LaunchRequested(_, paneId) =>
      var _ :- Require(current.status == AgentStatus.Planned);
      var pane :- NonEmpty(paneId);
      Ok(current.(status := AgentStatus.Launching, paneId := Some(pane), piSessionPath := None,
                  currentOperation := Some("starting Pi session"), waitingReason := None,
                  blockedReason := None, updatedAt := at))
    case SessionReady(_, path) =>
      var _ :- Require(current.status == AgentStatus.Launching);
      var session :- NonEmpty(path);
      Ok(current.(status := AgentStatus.Idle, piSessionPath := Some(session), currentOperation := None,
                  lastHeartbeatAt := at, lastMeaningfulActivityAt := at, updatedAt := at))
    case OperationStarted(_, operation) =>
      var _ :- Require(current.status == AgentStatus.Idle);
      var text :- NonEmpty(operation);
      Ok(current.(status := AgentStatus.Working, currentOperation := Some(text), waitingReason := None,
                  blockedReason := None, lastMeaningfulActivityAt := at, updatedAt := at))
    case OperationFinished(_) =>
      var _ :- Require(current.status in {AgentStatus.Working, AgentStatus.Reviewing});
      Ok(current.(status := AgentStatus.Idle, currentOperation := None,
                  lastMeaningfulActivityAt := at, updatedAt := at))
    case WaitingForInput(_, reason) =>
      var _ :- Require(current.status in {AgentStatus.Idle, AgentStatus.Working, AgentStatus.Reviewing});
      var text :- NonEmpty(reason);
      Ok(current.(status := AgentStatus.Waiting, currentOperation := None, waitingReason := Some(text),
                  lastMeaningfulActivityAt := at, updatedAt := at))
    case InputReceived(_) =>
      var _ :- Require(current.status == AgentStatus.Waiting);
      Ok(current.(status := AgentStatus.Idle, waitingReason := None,
                  lastMeaningfulActivityAt := at, updatedAt := at))
    case AgentBlocked(_, reason) =>
      var _ :- Require(current.status in {AgentStatus.Idle, AgentStatus.Working, AgentStatus.Waiting,
                                          AgentStatus.Reviewing});
      var text :- NonEmpty(reason);
      Ok(current.(status := AgentStatus.Blocked, currentOperation := None, waitingReason := None,
                  blockedReason := Some(text), lastMeaningfulActivityAt := at, updatedAt := at))
    case AgentUnblocked(_, operation) =>
      var _ :- Require(current.status == AgentStatus.Blocked);
      var text :- NonEmpty(operation);
      Ok(current.(status := AgentStatus.Working, currentOperation := Some(text), blockedReason := None,
                  lastMeaningfulActivityAt := at, updatedAt := at))
    case ReviewStarted(_, operation) =>
      var _ :- Require(current.status == AgentStatus.Idle);
      var text :- NonEmpty(operation);
      Ok(current.(status := AgentStatus.Reviewing, currentOperation := Some(text),
                  lastMeaningfulActivityAt := at, updatedAt := at))
    case Heartbeat(_) =>
      var _ :- Require(current.status in {AgentStatus.Launching, AgentStatus.Idle, AgentStatus.Working,
                                          AgentStatus.Waiting, AgentStatus.Blocked, AgentStatus.Reviewing});
      Ok(current.(lastHeartbeatAt := at, updatedAt := at))
    case NudgeSent(_) =>
      var _ :- Require(current.status == AgentStatus.Idle);
      Ok(current.(nudgeCount := current.nudgeCount + 1, lastNudgeAt := Some(at), updatedAt := at))
    case AgentCompleted(_) =>
      var _ :- Require(current.status in {AgentStatus.Idle, AgentStatus.Working, AgentStatus.Reviewing});
      Ok(current.(status := AgentStatus.Completed, currentOperation := None, waitingReason := None,
                  blockedReason := None, lastMeaningfulActivityAt := at, updatedAt := at))
    case AgentFailed(_, reason) =>
      var _ :- Require(current.status !in {AgentStatus.Completed, AgentStatus.Failed, AgentStatus.Closed});
      var text :- NonEmpty(reason);
      Ok(current.(status := AgentStatus.Failed, currentOperation := None, waitingReason := None,
                  blockedReason := Some(text), lastMeaningfulActivityAt := at, updatedAt := at))
    case PaneLost(_) =>
      var _ :- Require(current.status !in {AgentStatus.Completed, AgentStatus.Failed,
                                           AgentStatus.Closed, AgentStatus.Disconnected});
      Ok(current.(status := AgentStatus.Disconnected, paneId := None, currentOperation := None,
                  waitingReason := None, blockedReason := Some("Herdr pane disconnected"),
                  updatedAt := at))
    case RecoveryRequested(_, paneId) =>
      var _ :- Require(current.status == AgentStatus.Disconnected);
      var pane :- NonEmpty(paneId);
      Ok(current.(status := AgentStatus.Launching, paneId := Some(pane),
                  currentOperation := Some("restoring Pi session"), blockedReason := None,
                  updatedAt := at))
    case AgentClosed(_, leaseReleased) =>
      var _ :- Require(current.status in {AgentStatus.Completed, AgentStatus.Failed,
                                          AgentStatus.Disconnected} && leaseReleased);
      Ok(current.(status := AgentStatus.Closed, paneId := None, currentOperation := None,
                  updatedAt := at))
  }
}
