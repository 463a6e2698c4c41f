/**
 The invariant of every reachable agent, and what it means for recovery after a
 restart and for the liveness check.
 */
module Recovery {
  import opened Wrappers
  import opened ControllerState
  import opened AgentMessages

  // ---------------------------------------------------------------- startup recovery

  datatype RecoveryReasonCode =
    | AgentOperationInterrupted
    | CandidateCommitInterrupted
    | MergeInterrupted
    | TerminalRunHasActiveAgent

  datatype RecoveryReason = RecoveryReason(code: RecoveryReasonCode, entityId: string)

  datatype StartupRecoveryAssessment = StartupRecoveryAssessment(ready: bool, reasons: seq<RecoveryReason>)

  predicate IsInterrupted(status: AgentStatus) {
    status in {AgentStatus.Launching, AgentStatus.Working, AgentStatus.Reviewing}
  }

  function AgentReasons(run: RunState, agents: seq<AgentState>): seq<RecoveryReason> {
    if agents == [] then []
    else
      var last := agents[|agents| - 1];
      AgentReasons(run, agents[..|agents| - 1])
      + (if IsInterrupted(last.status)
         then [RecoveryReason(if IsTerminal(run.status) then TerminalRunHasActiveAgent
                              else AgentOperationInterrupted, last.id)]
         else [])
  }

  function StoryReasons(stories: seq<StoryState>): seq<RecoveryReason> {
    if stories == [] then []
    else
      var last := stories[|stories| - 1];
      StoryReasons(stories[..|stories| - 1])
      + (if last.status == StoryStatus.AwaitingCandidate then [RecoveryReason(CandidateCommitInterrupted, last.id)]
        else [])
      + (if last.status == StoryStatus.Merging then [RecoveryReason(MergeInterrupted, last.id)] else [])
  }

  method AssessStartupRecovery(snapshot: Option<Snapshot>) returns (r: StartupRecoveryAssessment)
    ensures r.ready <==> r.reasons == []
    ensures r.reasons ==
            if snapshot.None? then []
            else AgentReasons(snapshot.value.run, snapshot.value.agents) + StoryReasons(snapshot.value.stories)
  {
    if snapshot.None? {
      return StartupRecoveryAssessment(true, []);
    }
    var run, agents, stories := snapshot.value.run, snapshot.value.agents, snapshot.value.stories;
    var reasons: seq<RecoveryReason> := [];
    for i := 0 to |agents|
      invariant reasons == AgentReasons(run, agents[..i])
    {
      assert agents[..i + 1][..i] == agents[..i];
      if IsInterrupted(agents[i].status) {
        reasons := reasons + [RecoveryReason(
          if IsTerminal(run.status) then TerminalRunHasActiveAgent else AgentOperationInterrupted, agents[i].id)];
      }
    }
    assert agents[..|agents|] == agents;
    for i := 0 to |stories|
      invariant reasons == AgentReasons(run, agents) + StoryReasons(stories[..i])
    {
      assert stories[..i + 1][..i] == stories[..i];
      if stories[i].status == StoryStatus.AwaitingCandidate {
        reasons := reasons + [RecoveryReason(CandidateCommitInterrupted, stories[i].id)];
      }
      if stories[i].status == StoryStatus.Merging {
        reasons := reasons + [RecoveryReason(MergeInterrupted, stories[i].id)];
      }
    }
    assert stories[..|stories|] == stories;
    return StartupRecoveryAssessment(reasons == [], reasons);
  }

  lemma {:induction false} AgentReasonIff(run: RunState, agents: seq<AgentState>, code: RecoveryReasonCode, id: string)
    ensures RecoveryReason(code, id) in AgentReasons(run, agents) <==>
            && (exists agent :: agent in agents && agent.id == id
                                && (agent.status == AgentStatus.Launching || agent.status == AgentStatus.Working
                                    || agent.status == AgentStatus.Reviewing))
            && code == if run.status == RunStatus.Completed || run.status == RunStatus.Failed
                          || run.status == RunStatus.Cancelled
                       then TerminalRunHasActiveAgent else AgentOperationInterrupted
  {
    if agents != [] {
      var init, last := agents[..|agents| - 1], agents[|agents| - 1];
      assert agents == init + [last];
      AgentReasonIff(run, init, code, id);
      assert last in agents && forall agent :: agent in agents ==> agent in init || agent == last;
    }
  }

  lemma {:induction false} StoryReasonIff(stories: seq<StoryState>, code: RecoveryReasonCode, id: string)
    ensures RecoveryReason(code, id) in StoryReasons(stories) <==>
            exists story :: story in stories && story.id == id
                            && ((code == CandidateCommitInterrupted && story.status == StoryStatus.AwaitingCandidate)
                                || (code == MergeInterrupted && story.status == StoryStatus.Merging))
  {
    if stories != [] {
      var init, last := stories[..|stories| - 1], stories[|stories| - 1];
      assert stories == init + [last];
      StoryReasonIff(init, code, id);
      assert last in stories && forall story :: story in stories ==> story in init || story == last;
    }
  }

  /**
   A launching, working or reviewing agent is reported as interrupted, or, once the run has ended, as still
   active; a story awaiting its candidate or its merge is reported under the commit that was interrupted.
   */
  lemma ReasonsFollowStatuses(s: Snapshot, code: RecoveryReasonCode, id: string)
    ensures var ended := s.run.status == RunStatus.Completed || s.run.status == RunStatus.Failed
                         || s.run.status == RunStatus.Cancelled;
      RecoveryReason(code, id) in AgentReasons(s.run, s.agents) + StoryReasons(s.stories) <==>
      match code
      case AgentOperationInterrupted => !ended && HasActiveAgent(s, id)
      case TerminalRunHasActiveAgent => ended && HasActiveAgent(s, id)
      case CandidateCommitInterrupted => HasStoryIn(s, id, StoryStatus.AwaitingCandidate)
      case MergeInterrupted => HasStoryIn(s, id, StoryStatus.Merging)
  {
    AgentReasonIff(s.run, s.agents, code, id);
    StoryReasonIff(s.stories, code, id);
  }

  ghost predicate HasActiveAgent(s: Snapshot, id: string) {
    exists agent :: agent in s.agents && agent.id == id
                    && (agent.status == AgentStatus.Launching || agent.status == AgentStatus.Working
                        || agent.status == AgentStatus.Reviewing)
  }

  ghost predicate HasStoryIn(s: Snapshot, id: string, status: StoryStatus) {
    exists story :: story in s.stories && story.id == id && story.status == status
  }

  // ---------------------------------------------------------------- the agent invariant

  /** What the attention fields of an agent say about its status, and its pane. */
  ghost predicate AgentOk(agent: AgentState) {
    && (agent.currentOperation.Some? <==> IsInterrupted(agent.status))
    && (agent.waitingReason.Some? <==> agent.status == AgentStatus.Waiting)
    && (agent.blockedReason.Some? ==>
          agent.status in {AgentStatus.Blocked, AgentStatus.Failed, AgentStatus.Disconnected, AgentStatus.Closed})
    && (agent.status in {AgentStatus.Launching, AgentStatus.Idle, AgentStatus.Working, AgentStatus.Waiting,
                         AgentStatus.Blocked, AgentStatus.Reviewing, AgentStatus.Completed} ==>
          agent.paneId.Some?)
  }

  function ApplyAll(agent: AgentState, transitions: seq<AgentTransition>): Result<AgentState, TransitionError>
    decreases |transitions|
  {
    if transitions == [] then Ok(agent)
    else
      var next :- TransitionAgent(agent, transitions[0]);
      ApplyAll(next, transitions[1..])
  }

  lemma {:induction false} TransitionsKeepAgentOk(agent: AgentState, transitions: seq<AgentTransition>)
    requires AgentOk(agent) && ApplyAll(agent, transitions).Ok?
    ensures AgentOk(ApplyAll(agent, transitions).value)
    decreases |transitions|
  {
    if transitions != [] {
      TransitionsKeepAgentOk(TransitionAgent(agent, transitions[0]).value, transitions[1..]);
    }
  }

  /**
   Every agent that transitions can reach from creation has an operation exactly
   in the statuses recovery treats as interrupted, a waiting reason exactly when
   it waits, and no attention field while idle.
   */
  lemma ReachableAgentInvariant(id: string, runId: string, role: string, taskId: Option<string>, createdAt: nat,
                                transitions: seq<AgentTransition>)
    requires ApplyAll(CreateAgentState(id, runId, role, taskId, createdAt), transitions).Ok?
    ensures var agent := ApplyAll(CreateAgentState(id, runId, role, taskId, createdAt), transitions).value;
      && AgentOk(agent)
      && (agent.status == AgentStatus.Idle ==>
            agent.currentOperation.None? && agent.waitingReason.None? && agent.blockedReason.None?
            && agent.paneId.Some?)
  {
    TransitionsKeepAgentOk(CreateAgentState(id, runId, role, taskId, createdAt), transitions);
  }

  // ---------------------------------------------------------------- child messages

  /** Apply messages in order, each at its own time; a rejected message leaves the agent as it was. */
  function Receive(agent: AgentState, messages: seq<(AgentMessage, nat)>): AgentState
    decreases |messages|
  {
    if messages == [] then agent
    else
      var r := ApplyAgentMessage(agent, messages[0].0, messages[0].1);
      Receive(if r.Ok? then r.value.agent else agent, messages[1..])
  }

  /** The statuses only the controller itself can give an agent. */
  predicate ControllerOwned(status: AgentStatus) {
    status in {AgentStatus.Completed, AgentStatus.Closed, AgentStatus.Disconnected}
  }

  /** What a child message may not do to its agent. */
  ghost predicate InBounds(before: AgentState, after: AgentState) {
    && after.paneId == before.paneId && after.id == before.id && after.runId == before.runId
    && (ControllerOwned(after.status) ==> after.status == before.status)
    && (AgentOk(before) ==> AgentOk(after))
    && after.nudgeCount == before.nudgeCount && after.lastNudgeAt == before.lastNudgeAt
  }

  predicate IsChildTransition(t: AgentTransition) {
    || t.SessionReady? || t.OperationStarted? || t.OperationFinished? || t.AgentBlocked? || t.AgentUnblocked?
    || t.Heartbeat? || t.AgentFailed?
  }

  lemma ChildTransitionKeepsBounds(agent: AgentState, t: AgentTransition)
    requires IsChildTransition(t) && TransitionAgent(agent, t).Ok?
    ensures InBounds(agent, TransitionAgent(agent, t).value)
  {
  }

  lemma CompletionKeepsBounds(agent: AgentState, success: bool, at: nat)
    requires CompleteOperation(agent, success, at).Ok?
    ensures InBounds(agent, CompleteOperation(agent, success, at).value)
  {
    if success && agent.status == AgentStatus.Blocked {
      ChildTransitionKeepsBounds(agent, AgentUnblocked(at, "agent operation"));
      ChildTransitionKeepsBounds(TransitionAgent(agent, AgentUnblocked(at, "agent operation")).value,
        OperationFinished(at));
    } else if success {
      ChildTransitionKeepsBounds(agent, OperationFinished(at));
    } else {
      ChildTransitionKeepsBounds(agent, AgentFailed(at, "child operation reported failure"));
    }
  }

  lemma MessageKeepsBounds(agent: AgentState, message: AgentMessage, at: nat)
    requires ApplyAgentMessage(agent, message, at).Ok?
    ensures InBounds(agent, ApplyAgentMessage(agent, message, at).value.agent)
  {
    if ApplyAgentMessage(agent, message, at).value.changed {
      match message.body
      case SessionStarted(Some(path)) => ChildTransitionKeepsBounds(agent, SessionReady(at, path));
      case OperationStartedReport(taskId) =>
        ChildTransitionKeepsBounds(agent,
          OperationStarted(at, if taskId.Some? then taskId.value else "agent operation"));
      case OperationCompleted(success) => CompletionKeepsBounds(agent, success, at);
      case BlockedReport(detail) => ChildTransitionKeepsBounds(agent, AgentBlocked(at, detail));
      case UnblockedReport(operation) => ChildTransitionKeepsBounds(agent, AgentUnblocked(at, operation));
      case _ => ChildTransitionKeepsBounds(agent, Heartbeat(at));
    }
  }

  /**
   No sequence of child messages moves an agent into completed, closed or
   disconnected, changes its pane, or breaks the agent invariant.
   */
  lemma {:induction false} MessagesStayInBounds(agent: AgentState, messages: seq<(AgentMessage, nat)>)
    ensures var after := Receive(agent, messages);
      && after.paneId == agent.paneId && after.id == agent.id && after.runId == agent.runId
      && (after.status in {AgentStatus.Completed, AgentStatus.Closed, AgentStatus.Disconnected} ==>
            after.status == agent.status)
      && (AgentOk(agent) ==> AgentOk(after))
      && after.nudgeCount == agent.nudgeCount && after.lastNudgeAt == agent.lastNudgeAt
    decreases |messages|
  {
    if messages != [] {
      var r := ApplyAgentMessage(agent, messages[0].0, messages[0].1);
      if r.Ok? {
        MessageKeepsBounds(agent, messages[0].0, messages[0].1);
        MessagesStayInBounds(r.value.agent, messages[1..]);
      } else {
        MessagesStayInBounds(agent, messages[1..]);
      }
    }
  }

  // ---------------------------------------------------------------- recovery of committed snapshots

  lemma {:induction false} AgentReasonsEmpty(run: RunState, agents: seq<AgentState>)
    requires forall agent | agent in agents :: AgentOk(agent)
    ensures AgentReasons(run, agents) == [] <==> forall agent | agent in agents :: agent.currentOperation.None?
  {
    if agents != [] {
      var init, last := agents[..|agents| - 1], agents[|agents| - 1];
      assert agents == init + [last];
      AgentReasonsEmpty(run, init);
      assert last in agents && forall agent | agent in init :: agent in agents;
    }
  }

  lemma {:induction false} StoryReasonsEmpty(stories: seq<StoryState>)
    ensures StoryReasons(stories) == [] <==>
            forall story | story in stories :: story.status !in {StoryStatus.AwaitingCandidate, StoryStatus.Merging}
  {
    if stories != [] {
      var init, last := stories[..|stories| - 1], stories[|stories| - 1];
      assert stories == init + [last];
      StoryReasonsEmpty(init);
      assert last in stories && forall story | story in init :: story in stories;
    }
  }

  /** A restart needs no reconciliation exactly when no agent has an operation in hand and no story is mid-commit. */
  lemma ReadyIffNothingInterrupted(s: Snapshot)
    requires forall agent | agent in s.agents :: AgentOk(agent)
    ensures AgentReasons(s.run, s.agents) + StoryReasons(s.stories) == [] <==>
            && (forall agent | agent in s.agents :: agent.currentOperation.None?)
            && forall story | story in s.stories ::
                 story.status !in {StoryStatus.AwaitingCandidate, StoryStatus.Merging}
  {
    AgentReasonsEmpty(s.run, s.agents);
    StoryReasonsEmpty(s.stories);
  }
}
