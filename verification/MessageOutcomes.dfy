/**
 What child messages make of the agent that sends them: when a message is
 accepted, and exactly what it leaves of the agent's record.
 */
module MessageOutcomes {
  import opened Wrappers
  import opened ControllerState
  import opened AgentMessages
  import opened StateOutcomes

  /** The message carries this agent's identity. */
  predicate IsFrom(message: AgentMessage, agent: AgentState) {
    message.runId == agent.runId && message.agentId == agent.id
  }

  function Kept(agent: AgentState): Result<MessageResult, MessageError> {
    Ok(MessageResult(agent, false))
  }

  /** A message under another identity is refused, and so is one that only the controller sends. */
  lemma ForeignMessagesAreRefused(agent: AgentState, message: AgentMessage, at: nat)
    ensures ApplyAgentMessage(agent, message, at) == Err(IdentityMismatch) <==> !IsFrom(message, agent)
    ensures ApplyAgentMessage(agent, message, at) == Err(ControllerDirected) <==>
            IsFrom(message, agent)
            && (message.body.SupervisorNudge? || message.body.SupervisorCompletion? || message.body.SupervisorError?)
  {
  }

  /** A session makes a launching agent idle in it; without a path, or reported again, it changes nothing. */
  lemma SessionMakesIdle(agent: AgentState, message: AgentMessage, at: nat)
    requires IsFrom(message, agent) && message.body.SessionStarted?
    ensures var r, path := ApplyAgentMessage(agent, message, at), message.body.piSessionPath;
      if path.None? || (agent.status == AgentStatus.Idle && agent.piSessionPath == path) then r == Kept(agent)
      else
        && (r.Ok? <==> agent.status == AgentStatus.Launching && agent.updatedAt <= at && !IsBlank(path.value))
        && (r.Ok? ==>
              r == Ok(MessageResult(agent.(status := AgentStatus.Idle, piSessionPath := Some(Trim(path.value)),
                                           currentOperation := None, lastHeartbeatAt := at,
                                           lastMeaningfulActivityAt := at, updatedAt := at), true)))
  {
    if message.body.piSessionPath.Some? {
      NonEmptyUnlessBlank(message.body.piSessionPath.value);
    }
  }

  lemma DefaultOperationIsText()
    ensures NonEmpty("agent operation") == Ok("agent operation")
  {
    TrimmedText("agent operation", 14);
  }

  /** An operation makes an idle agent work on it; one without a task is an agent operation. */
  lemma OperationMakesWorking(agent: AgentState, message: AgentMessage, at: nat)
    requires IsFrom(message, agent) && message.body.OperationStartedReport?
    ensures var r, task := ApplyAgentMessage(agent, message, at), message.body.taskId;
      && (r.Ok? <==> agent.status == AgentStatus.Idle && agent.updatedAt <= at && (task.Some? ==> !IsBlank(task.value)))
      && (r.Ok? ==>
            r == Ok(MessageResult(
              agent.(status := AgentStatus.Working,
                     currentOperation := Some(if task.Some? then Trim(task.value) else "agent operation"),
                     waitingReason := None, blockedReason := None, lastMeaningfulActivityAt := at, updatedAt := at),
              true)))
  {
    DefaultOperationIsText();
    if message.body.taskId.Some? {
      NonEmptyUnlessBlank(message.body.taskId.value);
    }
  }

  /** Heartbeats and progress of a living agent move its heartbeat, and nothing else. */
  lemma HeartbeatIsNoted(agent: AgentState, message: AgentMessage, at: nat)
    requires IsFrom(message, agent) && (message.body.HeartbeatReport? || message.body.OperationProgress?)
    ensures var r := ApplyAgentMessage(agent, message, at);
      && (r.Ok? <==>
            && agent.updatedAt <= at && !Ended(agent.status)
            && agent.status != AgentStatus.Planned && agent.status != AgentStatus.Disconnected)
      && (r.Ok? ==> r == Ok(MessageResult(agent.(lastHeartbeatAt := at, updatedAt := at), true)))
  {
  }

  /** A finished operation leaves a working or reviewing agent idle, and a blocked one too, without what blocked it. */
  lemma SuccessMakesIdle(agent: AgentState, message: AgentMessage, at: nat)
    requires IsFrom(message, agent) && message.body == OperationCompleted(true)
    ensures var r := ApplyAgentMessage(agent, message, at);
      && (r.Ok? <==>
            && agent.updatedAt <= at
            && (agent.status == AgentStatus.Working || agent.status == AgentStatus.Reviewing
                || agent.status == AgentStatus.Blocked))
      && (r.Ok? ==>
            r == Ok(MessageResult(
              agent.(status := AgentStatus.Idle, currentOperation := None,
                     blockedReason := if agent.status == AgentStatus.Blocked then None else agent.blockedReason,
                     lastMeaningfulActivityAt := at, updatedAt := at), true)))
  {
    DefaultOperationIsText();
  }

  /** A failed operation fails an agent that has not ended. */
  lemma FailureFailsTheAgent(agent: AgentState, message: AgentMessage, at: nat)
    requires IsFrom(message, agent) && message.body == OperationCompleted(false)
    ensures var r := ApplyAgentMessage(agent, message, at);
      && (r.Ok? <==> agent.updatedAt <= at && !Ended(agent.status))
      && (r.Ok? ==>
            r == Ok(MessageResult(
              agent.(status := AgentStatus.Failed, currentOperation := None, waitingReason := None,
                     blockedReason := Some("child operation reported failure"),
                     lastMeaningfulActivityAt := at, updatedAt := at), true)))
  {
    var text := "child operation reported failure";
    assert text[31] == 'e';
    TrimmedText(text, 31);
  }

  /** The first report of what blocks an active agent counts; repeating it changes nothing. */
  lemma BlockerIsReportedOnce(agent: AgentState, message: AgentMessage, at: nat)
    requires IsFrom(message, agent) && message.body.BlockedReport?
    ensures var r := ApplyAgentMessage(agent, message, at);
      if agent.status == AgentStatus.Blocked then r == Kept(agent)
      else
        && (r.Ok? <==>
              && agent.updatedAt <= at && !IsBlank(message.body.detail)
              && (Busy(agent.status) || agent.status == AgentStatus.Waiting))
        && (r.Ok? ==>
              r == Ok(MessageResult(
                agent.(status := AgentStatus.Blocked, currentOperation := None, waitingReason := None,
                       blockedReason := Some(Trim(message.body.detail)),
                       lastMeaningfulActivityAt := at, updatedAt := at), true)))
  {
    NonEmptyUnlessBlank(message.body.detail);
  }

  /** An unblocked agent works again; one that was not blocked is left alone. */
  lemma UnblockedWorksAgain(agent: AgentState, message: AgentMessage, at: nat)
    requires IsFrom(message, agent) && message.body.UnblockedReport?
    ensures var r := ApplyAgentMessage(agent, message, at);
      if agent.status != AgentStatus.Blocked then r == Kept(agent)
      else
        && (r.Ok? <==> agent.updatedAt <= at && !IsBlank(message.body.operation))
        && (r.Ok? ==>
              r == Ok(MessageResult(
                agent.(status := AgentStatus.Working, currentOperation := Some(Trim(message.body.operation)),
                       blockedReason := None, lastMeaningfulActivityAt := at, updatedAt := at), true)))
  {
    NonEmptyUnlessBlank(message.body.operation);
  }

  /** Submissions and shutdowns are the controller's to act on: the agent's own record stays. */
  lemma SubmissionsKeepTheAgent(agent: AgentState, message: AgentMessage, at: nat)
    requires IsFrom(message, agent)
    requires message.body.SessionShutdown? || message.body.CandidateReady? || message.body.ReviewSubmitted?
    ensures ApplyAgentMessage(agent, message, at) == Kept(agent)
  {
  }
}
