/** Authenticated child messages, and the part of them that changes an agent's own state. */
module AgentMessages {
  import opened Wrappers
  import opened ControllerState

  datatype ReviewOutcome = ApprovedOutcome | ChangesRequestedOutcome

  datatype MessageBody =
    | SessionStarted(piSessionPath: Option<string>)
    | SessionShutdown
    | OperationStartedReport(taskId: Option<string>)
    | OperationProgress
    | OperationCompleted(success: bool)
    | HeartbeatReport
    | BlockedReport(detail: string)
    | UnblockedReport(operation: string)
    | CandidateReady
    | ReviewSubmitted(outcome: ReviewOutcome, candidateStoryHead: string, integrationHead: string)
    | SupervisorNudge
    | SupervisorCompletion
    | SupervisorError

  datatype AgentMessage = AgentMessage(runId: string, agentId: string, body: MessageBody)

  datatype MessageError = IdentityMismatch | ControllerDirected | Rejected(error: TransitionError)

  datatype MessageResult = MessageResult(agent: AgentState, changed: bool)

  function Changed(r: Result<AgentState, TransitionError>): Result<MessageResult, MessageError> {
    match r
    case Ok(agent) => Ok(MessageResult(agent, true))
    case Err(error) => Err(Rejected(error))
  }

  /** A completed operation: a blocked agent is first unblocked, a failed operation fails the agent. */
  function CompleteOperation(current: AgentState, success: bool, at: nat): Result<AgentState, TransitionError> {
    if success && current.status == AgentStatus.Blocked then
      var resumed :- TransitionAgent(current, AgentUnblocked(at, "agent operation"));
      TransitionAgent(resumed, OperationFinished(at))
    else if success then TransitionAgent(current, OperationFinished(at))
    else TransitionAgent(current, AgentFailed(at, "child operation reported failure"))
  }

  function ApplyAgentMessage(current: AgentState, message: AgentMessage, at: nat): Result<MessageResult, MessageError> {
    if message.runId != current.runId || message.agentId != current.id then Err(IdentityMismatch)
    else
      match message.body
      case SessionStarted(None) => Ok(MessageResult(current, false))
      case SessionStarted(Some(path)) =>
        if current.status == AgentStatus.Idle && current.piSessionPath == Some(path)
        then Ok(MessageResult(current, false))
        else Changed(TransitionAgent(current, SessionReady(at, path)))
      case OperationStartedReport(taskId) =>
        Changed(TransitionAgent(current, OperationStarted(at,
          if taskId.Some? then taskId.value else "agent operation")))
      case OperationProgress => Changed(TransitionAgent(current, Heartbeat(at)))
      case OperationCompleted(success) => Changed(CompleteOperation(current, success, at))
      case HeartbeatReport => Changed(TransitionAgent(current, Heartbeat(at)))
      case BlockedReport(detail) =>
        if current.status == AgentStatus.Blocked then Ok(MessageResult(current, false))
        else Changed(TransitionAgent(current, AgentBlocked(at, detail)))
      case UnblockedReport(operation) =>
        if current.status != AgentStatus.Blocked then Ok(MessageResult(current, false))
        else Changed(TransitionAgent(current, AgentUnblocked(at, operation)))
      case SessionShutdown => Ok(MessageResult(current, false))
      case CandidateReady => Ok(MessageResult(current, false))
      case ReviewSubmitted(_, _, _) => Ok(MessageResult(current, false))
      case SupervisorNudge => Err(ControllerDirected)
      case SupervisorCompletion => Err(ControllerDirected)
      case SupervisorError => Err(ControllerDirected)
  }
}
